/**
 One host's run of a plan, real or as a preview: what each step and task does to the variables,
 to the set of those a preview cannot know, and to the counts.

 A module's `check` and `apply` are an oracle, keyed by the task's place in the plan. The
 functions say what each part of a run does; the class runs it on mutable fields.
 */
module NodeRunner {
  import opened Wrappers
  import opened Text
  import opened Condition
  import opened ReservedNames
  import opened TaskKeys
  import Render

  type Vars = map<string, string>

  datatype LoopSource = LoopVariable(name: string) | LoopLiteral(items: seq<string>)

  datatype LoopItem = Flat(value: string) | Structured(row: Vars)

  datatype ModuleKind = HostModule | RegisteredModule | MissingModule

  /** `texts` are the resource and the arguments, interpolated when the task runs. */
  datatype Task = Task(kind: ModuleKind, texts: seq<string>, register: Option<string>, when: Option<Groups>, neverChanges: bool)

  /** `excluded` is whether the run's tags leave the step out. */
  datatype Step = Step(
    excluded: bool, when: Option<Groups>, until: Option<string>, loop: Option<LoopSource>,
    tasks: seq<Task>, rescue: seq<Task>, always: seq<Task>)

  /** What applying a module reported. */
  datatype Applied = Applied(output: string, changed: bool, cut: bool)

  /** What `check` found and, when it was pending, what `apply` gave. */
  datatype Verdict = CheckFailed | Satisfied | CheckUnknown | Pending(applied: Option<Applied>)

  datatype FailureKind =
    | GateFailed(error: EvalError) | NoSuchModule | BadParameters | CheckError | ApplyError | OutputCut
    | LoopUndefined(name: string) | UntilFailed

  /** A run: real or dry, its lists, its oracles, and how a failure reads once redacted. */
  datatype Config = Config(
    dry: bool, collections: map<string, Rows>, verdict: TaskKey -> Verdict, opens: nat -> bool,
    shown: FailureKind -> (string, string))

  /** What a host's run has come to. The last three are history: a failure happened, a preview
      skipped something it could not decide, a preview looped over an unknown variable. */
  datatype State = State(
    vars: Vars, unknown: set<string>, changed: nat, skipped: nat,
    failed: bool, undecided: bool, loopedUnknown: bool)

  datatype Ran = Ran(state: State, failure: Option<FailureKind>)

  function ShapeOf(s: Step): StepShape {
    StepShape(|s.tasks|, |s.rescue|, |s.always|)
  }

  function ScopeOf(cfg: Config, st: State): Scope {
    Scope(st.vars, cfg.collections, st.unknown)
  }

  // ---- Gates and registers ----

  datatype Gate = Run | Skip(decided: bool)

  function GateOf(when: Option<Groups>, scope: Scope): Result<Gate, EvalError> {
    match when
    case None => Ok(Run)
    case Some(groups) =>
      match Eval(groups, scope)
      case Err(error) => Err(error)
      case Ok(True) => Ok(Run)
      case Ok(False) => Ok(Skip(true))
      case Ok(Undetermined(_)) => Ok(Skip(false))
  }

  function Mark(unknown: set<string>, name: string, known: bool): set<string> {
    if known then unknown - {name} else unknown + {name}
  }

  function Register(st: State, name: string, value: string, known: bool): State {
    st.(vars := st.vars[name := value], unknown := Mark(st.unknown, name, known))
  }

  function SkipRegister(st: State, register: Option<string>, decided: bool): State {
    match register
    case None => st
    case Some(name) => st.(vars := st.vars - {name}, unknown := Mark(st.unknown, name, decided))
  }

  function SkipAll(st: State, tasks: seq<Task>, decided: bool): State {
    if tasks == [] then st
    else SkipRegister(SkipAll(st, tasks[..|tasks| - 1], decided), tasks[|tasks| - 1].register, decided)
  }

  function CapturedOutput(dry: bool, a: Applied): Result<string, FailureKind> {
    if dry then Ok("") else if a.cut then Err(OutputCut) else Ok(Trim(a.output))
  }

  function Fail(st: State, why: FailureKind): Ran {
    Ran(st.(failed := true), Some(why))
  }

  function CountChange(st: State, changed: bool): State {
    if changed then st.(changed := st.changed + 1) else st
  }

  predicate Interpolates(texts: seq<string>, vars: Vars) {
    texts == [] || (Render.Interpolated(texts[0], vars).Ok? && Interpolates(texts[1..], vars))
  }

  // ---- One task ----

  function RegisterOutput(cfg: Config, st: State, register: Option<string>, a: Applied): Ran {
    match register
    case None => Ran(st, None)
    case Some(name) =>
      match CapturedOutput(cfg.dry, a)
      case Err(why) => Fail(st, why)
      case Ok(value) => Ran(Register(st, name, value, !cfg.dry), None)
  }

  /** A task whose gate let it run. */
  function RunModule(cfg: Config, st: State, key: TaskKey, task: Task): Ran {
    if task.kind.MissingModule? then Fail(st, NoSuchModule)
    else if !Interpolates(task.texts, st.vars) then Fail(st, BadParameters)
    else if task.kind.HostModule? then RunHost(cfg, st, key, task)
    else CheckAndApply(cfg, st, key, task)
  }

  function CheckAndApply(cfg: Config, st: State, key: TaskKey, task: Task): Ran {
    match cfg.verdict(key)
    case CheckFailed => Fail(st, CheckError)
    case CheckUnknown => Ran(st, None)
    case Satisfied =>
      Ran(if task.register.Some? then Register(st, task.register.value, "", true) else st, None)
    case Pending(None) => Fail(st, ApplyError)
    case Pending(Some(a)) =>
      var changed := (cfg.dry || a.changed) && !task.neverChanges;
      RegisterOutput(cfg, CountChange(st, changed), task.register, a)
  }

  /** A `host` task: a command with nothing to compare against, so it always counts. */
  function RunHost(cfg: Config, st: State, key: TaskKey, task: Task): Ran {
    match cfg.verdict(key)
    case Pending(Some(a)) =>
      var registered := RegisterOutput(cfg, st, task.register, a);
      if registered.failure.Some? then registered
      else registered.(state := CountChange(registered.state, true))
    case _ => Fail(st, ApplyError)
  }

  function RunTask(cfg: Config, st: State, key: TaskKey, task: Task): Ran {
    match GateOf(task.when, ScopeOf(cfg, st))
    case Err(error) => Fail(st, GateFailed(error))
    case Ok(Run) => RunModule(cfg, st, key, task)
    case Ok(Skip(decided)) =>
      var skipped := st.(skipped := st.skipped + 1, undecided := st.undecided || !decided);
      Ran(SkipRegister(skipped, task.register, decided), None)
  }

  /** The first `n` parts of something run in order, or up to the first that fails. */
  function Chain(run: (State, nat) -> Ran, st: State, n: nat): Ran {
    if n == 0 then Ran(st, None)
    else
      var before := Chain(run, st, n - 1);
      if before.failure.Some? then before else run(before.state, n - 1)
  }

  /** A failure ends the chain. */
  lemma {:induction false} ChainEnds(run: (State, nat) -> Ran, st: State, n: nat, m: nat)
    requires n <= m && (n == m || Chain(run, st, n).failure.Some?)
    ensures Chain(run, st, m) == Chain(run, st, n)
    decreases m
  {
    if n < m {
      ChainEnds(run, st, n, m - 1);
    }
  }

  function TaskRunner(cfg: Config, step: nat, tasks: seq<Task>, first: nat, iter: nat): (State, nat) -> Ran {
    (st: State, i: nat) =>
      if i < |tasks| then RunTask(cfg, st, TaskKey(step, first + i, iter), tasks[i]) else Ran(st, None)
  }

  /** A list of tasks; `first` is where they start among the step's. */
  function RunTasks(cfg: Config, st: State, step: nat, tasks: seq<Task>, first: nat, iter: nat): Ran {
    Chain(TaskRunner(cfg, step, tasks, first, iter), st, |tasks|)
  }

  // ---- Loops ----

  function ItemVars(item: LoopItem): Vars {
    match item
    case Flat(value) => map[ITEM := value]
    case Structured(row) =>
      map name | name in (set field | field in row :: ITEM_FIELD + field) :: FieldValue(row, name)
  }

  function FieldValue(row: Vars, name: string): string
    requires exists field :: field in row && name == ITEM_FIELD + field
  {
    assert forall field: string :: (ITEM_FIELD + field)[|ITEM_FIELD|..] == field;
    row[name[|ITEM_FIELD|..]]
  }

  function Inject(st: State, item: LoopItem): State {
    st.(vars := st.vars + ItemVars(item))
  }

  function Eject(st: State, item: LoopItem): State {
    st.(vars := st.vars - ItemVars(item).Keys)
  }

  function RunItem(cfg: Config, st: State, step: nat, tasks: seq<Task>, item: LoopItem, iter: nat): Ran {
    var inside := RunTasks(cfg, Inject(st, item), step, tasks, 0, iter);
    inside.(state := Eject(inside.state, item))
  }

  function ItemRunner(cfg: Config, step: nat, tasks: seq<Task>, items: seq<LoopItem>): (State, nat) -> Ran {
    (st: State, i: nat) => if i < |items| then RunItem(cfg, st, step, tasks, items[i], i) else Ran(st, None)
  }

  function RunItems(cfg: Config, st: State, step: nat, tasks: seq<Task>, items: seq<LoopItem>): Ran {
    Chain(ItemRunner(cfg, step, tasks, items), st, |items|)
  }

  /** The non-empty lines of a value, trimmed. */
  function LineItems(value: string): seq<LoopItem>
    decreases |value|
  {
    if value == "" then []
    else
      var end := IndexOf(value, '\n');
      var line := Trim(value[..end]);
      var later := if end == |value| then [] else LineItems(value[end + 1..]);
      (if line == "" then [] else [Flat(line)]) + later
  }

  function RowItems(rows: Rows): seq<LoopItem> {
    seq(|rows|, i requires 0 <= i < |rows| => Structured(rows[i]))
  }

  function ResolveItems(source: LoopSource, vars: Vars, collections: map<string, Rows>): Result<seq<LoopItem>, FailureKind> {
    match source
    case LoopLiteral(items) => Ok(seq(|items|, i requires 0 <= i < |items| => Flat(items[i])))
    case LoopVariable(name) =>
      if name in collections then Ok(RowItems(collections[name]))
      else if name in vars then Ok(LineItems(vars[name]))
      else Err(LoopUndefined(name))
  }

  predicate LoopsOverUnknown(cfg: Config, st: State, source: LoopSource) {
    source.LoopVariable? && source.name !in cfg.collections && source.name in st.unknown
  }

  // ---- One step ----

  /** A preview looks at the `until=` gate once and goes on, open or not. */
  predicate GateShut(cfg: Config, st: State, step: nat, s: Step) {
    s.until.Some? && (Render.Interpolated(s.until.value, st.vars).Err? || (!cfg.dry && !cfg.opens(step)))
  }

  /** The `until=` gate, then the tasks, once or for each item: what `rescue` covers. */
  function RunBody(cfg: Config, st: State, step: nat, s: Step): Ran {
    if GateShut(cfg, st, step, s) then Fail(st, UntilFailed)
    else
      match s.loop
      case None => RunTasks(cfg, st, step, s.tasks, 0, 0)
      case Some(source) =>
        var st1 := st.(loopedUnknown := st.loopedUnknown || LoopsOverUnknown(cfg, st, source));
        match ResolveItems(source, st.vars, cfg.collections)
        case Err(why) => Fail(st1, why)
        case Ok(items) => RunItems(cfg, st1, step, s.tasks, items)
  }

  function Expose(cfg: Config, st: State, why: FailureKind): State {
    var (msg, task) := cfg.shown(why);
    st.(vars := st.vars[ERROR_MSG := msg][ERROR_TASK := task])
  }

  function ErrorsUnknown(st: State): State {
    st.(unknown := st.unknown + ERRORS)
  }

  function Withdraw(st: State): State {
    st.(vars := st.vars - ERRORS, unknown := st.unknown - ERRORS)
  }

  /** What `rescue` and `always` find: the failure's variables, unknown ones in a preview that
      did not fail. */
  function AfterBody(cfg: Config, body: Ran): State {
    match body.failure
    case Some(why) => Expose(cfg, body.state, why)
    case None => if cfg.dry then ErrorsUnknown(body.state) else body.state
  }

  function RunRescue(cfg: Config, step: nat, s: Step, body: Ran): Ran {
    var st := AfterBody(cfg, body);
    if s.rescue == [] then Ran(st, body.failure)
    else if body.failure.Some? then RunTasks(cfg, st, step, s.rescue, FirstTask(ShapeOf(s), Rescue), 0)
    else Ran(SkipAll(st, s.rescue, !cfg.dry), None)
  }

  function RunAlways(cfg: Config, step: nat, s: Step, rescued: Ran): Ran {
    if s.always == [] then rescued
    else
      var always := RunTasks(cfg, rescued.state, step, s.always, FirstTask(ShapeOf(s), Always), 0);
      Ran(always.state, if rescued.failure.Some? then rescued.failure else always.failure)
  }

  function RunStarted(cfg: Config, st: State, step: nat, s: Step): Ran {
    var always := RunAlways(cfg, step, s, RunRescue(cfg, step, s, RunBody(cfg, st, step, s)));
    Ran(Withdraw(always.state), always.failure)
  }

  function SkipStep(st: State, s: Step, decided: bool): State {
    var skipped := st.(skipped := st.skipped + |s.tasks| + |s.always|, undecided := st.undecided || !decided);
    SkipAll(skipped, s.tasks + s.rescue + s.always, decided)
  }

  function StepGate(cfg: Config, st: State, s: Step): Result<Gate, EvalError> {
    if s.excluded then Ok(Skip(true)) else GateOf(s.when, ScopeOf(cfg, st))
  }

  function RunStep(cfg: Config, st: State, step: nat, s: Step): Ran {
    match StepGate(cfg, st, s)
    case Err(error) => Fail(st, GateFailed(error))
    case Ok(Skip(decided)) => Ran(SkipStep(st, s, decided), None)
    case Ok(Run) => RunStarted(cfg, st, step, s)
  }

  function StepRunner(cfg: Config, steps: seq<Step>): (State, nat) -> Ran {
    (st: State, i: nat) => if i < |steps| then RunStep(cfg, st, i, steps[i]) else Ran(st, None)
  }

  /** The first `n` steps, or up to the first that fails. */
  function RunSteps(cfg: Config, st: State, steps: seq<Step>, n: nat): Ran {
    Chain(StepRunner(cfg, steps), st, n)
  }

  function SectionTasks(s: Step, section: Section): seq<Task> {
    match section
    case Body => s.tasks
    case Rescue => s.rescue
    case Always => s.always
  }

  function Shapes(steps: seq<Step>): seq<StepShape> {
    seq(|steps|, i requires 0 <= i < |steps| => ShapeOf(steps[i]))
  }

  /** Every task run of a plan asks for the verdict, and a `host` task for the cell, of its own
      place: `KeysAreDistinct` is about the keys used here. */
  lemma RunsUnderItsKey(cfg: Config, st: State, steps: seq<Step>, run: TaskRun)
    requires InPlan(Shapes(steps), run)
    ensures var s := steps[run.step];
            && run.task < |SectionTasks(s, run.section)|
            && TaskRunner(cfg, run.step, SectionTasks(s, run.section), FirstTask(ShapeOf(s), run.section), run.iter)(st, run.task)
               == RunTask(cfg, st, KeyOf(Shapes(steps), run), SectionTasks(s, run.section)[run.task])
  {
    assert Shapes(steps)[run.step] == ShapeOf(steps[run.step]);
  }

  // ---- The run on mutable fields ----

  class Runner {
    const cfg: Config
    var vars: Vars
    var unknown: set<string>
    var changed: nat
    var skipped: nat
    ghost var failed: bool
    ghost var undecided: bool
    ghost var loopedUnknown: bool

    constructor (c: Config, initial: Vars)
      ensures cfg == c && View() == State(initial, {}, 0, 0, false, false, false)
    {
      cfg, vars, unknown, changed, skipped := c, initial, {}, 0, 0;
      failed, undecided, loopedUnknown := false, false, false;
    }

    ghost function View(): State
      reads this
    {
      State(vars, unknown, changed, skipped, failed, undecided, loopedUnknown)
    }

    function Sees(): Scope
      reads this
    {
      Scope(vars, cfg.collections, unknown)
    }

    method RegisterVar(name: string, value: string, known: bool)
      modifies this
      ensures View() == Register(old(View()), name, value, known)
    {
      vars := vars[name := value];
      unknown := Mark(unknown, name, known);
    }

    method SkipRegisterVar(register: Option<string>, decided: bool)
      modifies this
      ensures View() == SkipRegister(old(View()), register, decided)
    {
      if register.Some? {
        vars := vars - {register.value};
        unknown := Mark(unknown, register.value, decided);
      }
    }

    method SkipTasks(tasks: seq<Task>, decided: bool)
      modifies this
      ensures View() == SkipAll(old(View()), tasks, decided)
    {
      for i := 0 to |tasks|
        invariant View() == SkipAll(old(View()), tasks[..i], decided)
      {
        assert tasks[..i + 1][..i] == tasks[..i];
        SkipRegisterVar(tasks[i].register, decided);
      }
      assert tasks[..|tasks|] == tasks;
    }

    method RegisterOutputVar(register: Option<string>, a: Applied) returns (failure: Option<FailureKind>)
      modifies this
      ensures Ran(View(), failure) == RegisterOutput(cfg, old(View()), register, a)
    {
      if register.Some? {
        var value := CapturedOutput(cfg.dry, a);
        if value.Err? {
          failed := true;
          return Some(value.error);
        }
        RegisterVar(register.value, value.value, !cfg.dry);
      }
      failure := None;
    }

    method RunHostTask(key: TaskKey, task: Task) returns (failure: Option<FailureKind>)
      modifies this
      ensures Ran(View(), failure) == RunHost(cfg, old(View()), key, task)
    {
      match cfg.verdict(key)
      case Pending(Some(a)) =>
        failure := RegisterOutputVar(task.register, a);
        if failure.None? {
          changed := changed + 1;
        }
      case _ =>
        failed := true;
        failure := Some(ApplyError);
    }

    method RunOneTask(key: TaskKey, task: Task) returns (failure: Option<FailureKind>)
      modifies this
      ensures Ran(View(), failure) == RunTask(cfg, old(View()), key, task)
    {
      var gate := GateOf(task.when, Sees());
      match gate {
        case Err(error) =>
          failed := true;
          return Some(GateFailed(error));
        case Ok(Skip(decided)) =>
          skipped := skipped + 1;
          undecided := undecided || !decided;
          SkipRegisterVar(task.register, decided);
          return None;
        case Ok(Run) =>
      }
      if task.kind.MissingModule? {
        failed := true;
        return Some(NoSuchModule);
      }
      if !Interpolates(task.texts, vars) {
        failed := true;
        return Some(BadParameters);
      }
      if task.kind.HostModule? {
        failure := RunHostTask(key, task);
      } else {
        failure := RunCheckedTask(key, task);
      }
    }

    method RunCheckedTask(key: TaskKey, task: Task) returns (failure: Option<FailureKind>)
      modifies this
      ensures Ran(View(), failure) == CheckAndApply(cfg, old(View()), key, task)
    {
      match cfg.verdict(key) {
        case CheckFailed =>
          failed := true;
          failure := Some(CheckError);
        case CheckUnknown =>
          failure := None;
        case Satisfied =>
          if task.register.Some? {
            RegisterVar(task.register.value, "", true);
          }
          failure := None;
        case Pending(None) =>
          failed := true;
          failure := Some(ApplyError);
        case Pending(Some(a)) =>
          if (cfg.dry || a.changed) && !task.neverChanges {
            changed := changed + 1;
          }
          failure := RegisterOutputVar(task.register, a);
      }
    }

    method RunStepTasks(step: nat, tasks: seq<Task>, first: nat, iter: nat) returns (failure: Option<FailureKind>)
      modifies this
      ensures Ran(View(), failure) == RunTasks(cfg, old(View()), step, tasks, first, iter)
    {
      ghost var run, start := TaskRunner(cfg, step, tasks, first, iter), View();
      failure := None;
      var i: nat := 0;
      while i < |tasks| && failure.None?
        invariant i <= |tasks| && Ran(View(), failure) == Chain(run, start, i)
      {
        failure := RunOneTask(TaskKey(step, first + i, iter), tasks[i]);
        i := i + 1;
      }
      ChainEnds(run, start, i, |tasks|);
    }

    method RunLoop(step: nat, tasks: seq<Task>, items: seq<LoopItem>) returns (failure: Option<FailureKind>)
      modifies this
      ensures Ran(View(), failure) == RunItems(cfg, old(View()), step, tasks, items)
    {
      ghost var run, start := ItemRunner(cfg, step, tasks, items), View();
      failure := None;
      var i: nat := 0;
      while i < |items| && failure.None?
        invariant i <= |items| && Ran(View(), failure) == Chain(run, start, i)
      {
        failure := RunOneItem(step, tasks, items[i], i);
        i := i + 1;
      }
      ChainEnds(run, start, i, |items|);
    }

    /** One iteration: the item's variables are bound for its tasks only. */
    method RunOneItem(step: nat, tasks: seq<Task>, item: LoopItem, iter: nat) returns (failure: Option<FailureKind>)
      modifies this
      ensures Ran(View(), failure) == RunItem(cfg, old(View()), step, tasks, item, iter)
    {
      vars := vars + ItemVars(item);
      failure := RunStepTasks(step, tasks, 0, iter);
      vars := vars - ItemVars(item).Keys;
    }

    method RunStepBody(step: nat, s: Step) returns (failure: Option<FailureKind>)
      modifies this
      ensures Ran(View(), failure) == RunBody(cfg, old(View()), step, s)
    {
      if s.until.Some? {
        var command := Render.Interpolate(s.until.value, vars);
        if command.Err? || (!cfg.dry && !cfg.opens(step)) {
          failed := true;
          return Some(UntilFailed);
        }
      }
      if s.loop.None? {
        failure := RunStepTasks(step, s.tasks, 0, 0);
        return;
      }
      var source := s.loop.value;
      loopedUnknown := loopedUnknown || LoopsOverUnknown(cfg, View(), source);
      var items := ResolveItems(source, vars, cfg.collections);
      if items.Err? {
        failed := true;
        return Some(items.error);
      }
      failure := RunLoop(step, s.tasks, items.value);
    }

    /** `rescue`, after the body failed or not. */
    method RunRescueTasks(step: nat, s: Step, body: Option<FailureKind>) returns (failure: Option<FailureKind>)
      modifies this
      ensures Ran(View(), failure) == RunRescue(cfg, step, s, Ran(old(View()), body))
    {
      failure := body;
      if failure.Some? {
        var (msg, task) := cfg.shown(failure.value);
        vars := vars[ERROR_MSG := msg][ERROR_TASK := task];
      } else if cfg.dry {
        unknown := unknown + ERRORS;
      }
      if s.rescue != [] {
        if failure.Some? {
          failure := RunStepTasks(step, s.rescue, FirstTask(ShapeOf(s), Rescue), 0);
        } else {
          SkipTasks(s.rescue, !cfg.dry);
        }
      }
    }

    method RunAlwaysTasks(step: nat, s: Step, rescued: Option<FailureKind>) returns (failure: Option<FailureKind>)
      modifies this
      ensures Ran(View(), failure) == RunAlways(cfg, step, s, Ran(old(View()), rescued))
    {
      failure := rescued;
      if s.always != [] {
        var always := RunStepTasks(step, s.always, FirstTask(ShapeOf(s), Always), 0);
        failure := if failure.Some? then failure else always;
      }
    }

    method RunOneStep(step: nat, s: Step) returns (failure: Option<FailureKind>)
      modifies this
      ensures Ran(View(), failure) == RunStep(cfg, old(View()), step, s)
    {
      var gate := if s.excluded then Ok(Skip(true)) else GateOf(s.when, Sees());
      match gate {
        case Err(error) =>
          failed := true;
          return Some(GateFailed(error));
        case Ok(Skip(decided)) =>
          skipped := skipped + |s.tasks| + |s.always|;
          undecided := undecided || !decided;
          SkipTasks(s.tasks + s.rescue + s.always, decided);
          return None;
        case Ok(Run) =>
          failure := RunStartedStep(step, s);
      }
    }

    method RunStartedStep(step: nat, s: Step) returns (failure: Option<FailureKind>)
      modifies this
      ensures Ran(View(), failure) == RunStarted(cfg, old(View()), step, s)
    {
      failure := RunStepBody(step, s);
      failure := RunRescueTasks(step, s, failure);
      failure := RunAlwaysTasks(step, s, failure);
      vars := vars - ERRORS;
      unknown := unknown - ERRORS;
    }

    method RunPlan(steps: seq<Step>) returns (failure: Option<FailureKind>)
      modifies this
      ensures Ran(View(), failure) == RunSteps(cfg, old(View()), steps, |steps|)
    {
      ghost var run, start := StepRunner(cfg, steps), View();
      failure := None;
      var i: nat := 0;
      while i < |steps| && failure.None?
        invariant i <= |steps| && Ran(View(), failure) == Chain(run, start, i)
      {
        failure := RunOneStep(i, steps[i]);
        i := i + 1;
      }
      ChainEnds(run, start, i, |steps|);
    }
  }
}
