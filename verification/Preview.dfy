/**
 What a preview (`--dry-run`) says about the run it previews: what a task, a loop and a list of
 tasks change, and how they keep the two related.
 */
module Preview {
  import opened Wrappers
  import opened Condition
  import opened NodeRunner
  import opened ReservedNames
  import opened TaskKeys

  /*
   `Sim` relates the two: a name the preview does not hold unknown has the same value, or is
   missing, in both; an unknown name still among the variables is defined in the run. It is
   said of all names but those in `off`: a failure in one of the two that `rescue` makes good,
   or a loop over something the preview does not know, puts names in doubt.
   */

  /** The preview and the run of one plan, with the same lists and the same verdicts. */
  function Dry(cfg: Config): Config {
    cfg.(dry := true)
  }

  function Wet(cfg: Config): Config {
    cfg.(dry := false)
  }

  predicate SimAt(p: State, r: State, name: string) {
    if name in p.unknown then
      name in p.vars ==> name in r.vars
    else
      (name in p.vars <==> name in r.vars) && (name in p.vars ==> p.vars[name] == r.vars[name])
  }

  ghost predicate Sim(off: set<string>, p: State, r: State) {
    r.unknown == {} && forall name :: name !in off ==> SimAt(p, r, name)
  }

  /** A task found pending does change something when applied. */
  ghost predicate Honest(cfg: Config) {
    forall key :: cfg.verdict(key).Pending? && cfg.verdict(key).applied.Some? ==> cfg.verdict(key).applied.value.changed
  }

  /** Something happened that puts names in doubt. */
  predicate Blurred(p: State, r: State) {
    p.failed || r.failed || p.loopedUnknown
  }

  /** As long as nothing is blurred and the preview left nothing undecided, it counts as the run does. */
  ghost predicate CountsMatch(cfg: Config, p: State, r: State) {
    Honest(cfg) && !p.undecided && !Blurred(p, r) ==> p.changed == r.changed && p.skipped == r.skipped
  }

  ghost predicate Related(cfg: Config, off: set<string>, p: State, r: State) {
    Sim(off, p, r) && CountsMatch(cfg, p, r) && (off != {} ==> Blurred(p, r))
  }

  // ---- Gates ----

  /** A condition that refers to nothing in `off`. */
  ghost predicate Avoids(when: Option<Groups>, off: set<string>) {
    when.Some? ==> forall name :: RefersTo(when.value, name) ==> name !in off
  }

  /** What the preview's gate decides the run's decides the same, unless it fails: exactly if the
      run comes to a missing variable. The run's always decides. */
  ghost predicate DecidesAlike(cfg: Config, p: State, r: State, when: Option<Groups>) {
    var gp, gr := GateOf(when, ScopeOf(Dry(cfg), p)), GateOf(when, ScopeOf(Wet(cfg), r));
    && (gp.Ok? && gp != Ok(Skip(false)) ==>
          (gr == gp || gr.Err?) && (gr.Err? <==> when.Some? && Stops(when.value, ScopeOf(Wet(cfg), r))))
    && (gp.Err? ==> gr.Err?)
    && (gr.Ok? ==> gr == Ok(Run) || gr == Ok(Skip(true)))
  }

  lemma GatesMatch(cfg: Config, off: set<string>, p: State, r: State, when: Option<Groups>)
    requires Sim(off, p, r) && Avoids(when, off)
    ensures DecidesAlike(cfg, p, r, when)
  {
    if when.Some? {
      var sp, sr := ScopeOf(Dry(cfg), p), ScopeOf(Wet(cfg), r);
      forall name | RefersTo(when.value, name) ensures Agrees(sp, sr, name) {
        assert SimAt(p, r, name);
      }
      PreviewIsSound(when.value, sp, sr);
      FailsExactlyWhenStopped(when.value, sr);
      EvalIsPlain(when.value, sr);
    }
  }

  // ---- What a part of a run leaves alone ----

  /** Outside `names`, nothing changes but the loop's own variables, of which none is left that
      was not there. */
  ghost predicate Frame(names: set<string>, s: State, sNext: State) {
    && (s.failed ==> sNext.failed) && (s.undecided ==> sNext.undecided) && (s.loopedUnknown ==> sNext.loopedUnknown)
    && forall name :: name !in names ==>
         && (name in sNext.unknown <==> name in s.unknown)
         && (name in sNext.vars ==> name in s.vars)
         && (!IsItemVar(name) && name in s.vars ==> name in sNext.vars && sNext.vars[name] == s.vars[name])
  }

  /** A real run knows everything; a failure is recorded. */
  ghost predicate Recorded(cfg: Config, s: State, ran: Ran) {
    && (ran.failure.Some? ==> ran.state.failed)
    && (!cfg.dry && s.unknown == {} ==> ran.state.unknown == {})
  }

  function Names(register: Option<string>): set<string> {
    match register case None => {} case Some(name) => {name}
  }

  function Registers(tasks: seq<Task>): set<string> {
    if tasks == [] then {} else Registers(tasks[..|tasks| - 1]) + Names(tasks[|tasks| - 1].register)
  }

  lemma {:induction false} RegistersHold(tasks: seq<Task>, i: nat)
    requires i < |tasks|
    ensures Names(tasks[i].register) <= Registers(tasks)
  {
    if i < |tasks| - 1 {
      RegistersHold(tasks[..|tasks| - 1], i);
    }
  }

  lemma {:induction false} RegistersConcat(a: seq<Task>, b: seq<Task>)
    ensures Registers(a + b) == Registers(a) + Registers(b)
  {
    if b == [] {
      assert a + b == a;
    } else {
      assert (a + b)[..|a + b| - 1] == a + b[..|b| - 1];
      RegistersConcat(a, b[..|b| - 1]);
    }
  }

  lemma FrameThrough(names: set<string>, more: set<string>, s: State, s1: State, s2: State)
    requires Frame(names, s, s1) && Frame(more, s1, s2)
    ensures Frame(names + more, s, s2)
  {
    forall name | name !in names + more
      ensures (name in s2.unknown <==> name in s.unknown) && (name in s2.vars ==> name in s.vars)
      ensures !IsItemVar(name) && name in s.vars ==> name in s2.vars && s2.vars[name] == s.vars[name]
    {
      assert name !in names && name !in more;
    }
  }

  /** A task changes at most the one variable it registers. */
  ghost predicate TaskOnly(names: set<string>, s: State, sNext: State) {
    && (s.failed ==> sNext.failed) && (s.undecided ==> sNext.undecided) && (s.loopedUnknown ==> sNext.loopedUnknown)
    && forall name :: name !in names ==>
         && (name in sNext.unknown <==> name in s.unknown)
         && (name in sNext.vars <==> name in s.vars)
         && (name in s.vars ==> sNext.vars[name] == s.vars[name])
  }

  ghost predicate TaskEffect(cfg: Config, st: State, register: Option<string>, ran: Ran) {
    TaskOnly(Names(register), st, ran.state) && Recorded(cfg, st, ran)
  }

  lemma OutputFrame(cfg: Config, st: State, register: Option<string>, a: Applied)
    ensures TaskEffect(cfg, st, register, RegisterOutput(cfg, st, register, a))
  {
  }

  lemma HostFrame(cfg: Config, st: State, key: TaskKey, task: Task)
    ensures TaskEffect(cfg, st, task.register, RunHost(cfg, st, key, task))
  {
    match cfg.verdict(key)
    case Pending(Some(a)) => OutputFrame(cfg, st, task.register, a);
    case _ =>
  }

  lemma CheckedFrame(cfg: Config, st: State, key: TaskKey, task: Task)
    ensures TaskEffect(cfg, st, task.register, CheckAndApply(cfg, st, key, task))
  {
    match cfg.verdict(key)
    case Pending(Some(a)) =>
      OutputFrame(cfg, CountChange(st, (cfg.dry || a.changed) && !task.neverChanges), task.register, a);
    case _ =>
  }

  lemma ModuleFrame(cfg: Config, st: State, key: TaskKey, task: Task)
    ensures TaskEffect(cfg, st, task.register, RunModule(cfg, st, key, task))
  {
    HostFrame(cfg, st, key, task);
    CheckedFrame(cfg, st, key, task);
  }

  lemma SkipFrame(st: State, register: Option<string>, decided: bool)
    ensures TaskOnly(Names(register), st, SkipRegister(st, register, decided))
    ensures decided && st.unknown == {} ==> SkipRegister(st, register, decided).unknown == {}
  {
  }

  lemma KnownGateDecides(when: Option<Groups>, scope: Scope)
    requires scope.unknown == {}
    ensures GateOf(when, scope) != Ok(Skip(false))
  {
    if when.Some? {
      EvalIsPlain(when.value, scope);
    }
  }

  lemma TaskFrame(cfg: Config, st: State, key: TaskKey, task: Task)
    ensures TaskEffect(cfg, st, task.register, RunTask(cfg, st, key, task))
  {
    match GateOf(task.when, ScopeOf(cfg, st))
    case Err(_) =>
    case Ok(Run) => ModuleFrame(cfg, st, key, task);
    case Ok(Skip(decided)) =>
      if st.unknown == {} {
        KnownGateDecides(task.when, ScopeOf(cfg, st));
      }
      SkipFrame(st.(skipped := st.skipped + 1, undecided := st.undecided || !decided), task.register, decided);
  }

  /** Each part of a chain stays within the frame. */
  ghost predicate PartsFrame(cfg: Config, names: set<string>, run: (State, nat) -> Ran, n: nat) {
    forall st, i: nat {:trigger run(st, i)} :: i < n ==>
      Frame(names, st, run(st, i).state) && Recorded(cfg, st, run(st, i))
  }

  lemma {:induction false} ChainFrame(cfg: Config, names: set<string>, run: (State, nat) -> Ran, st: State, n: nat)
    requires PartsFrame(cfg, names, run, n)
    ensures Frame(names, st, Chain(run, st, n).state) && Recorded(cfg, st, Chain(run, st, n))
  {
    if n > 0 {
      ChainFrame(cfg, names, run, st, n - 1);
      var before := Chain(run, st, n - 1);
      if before.failure.None? {
        FrameThrough(names, names, st, before.state, run(before.state, n - 1).state);
        assert names + names == names;
      }
    }
  }

  lemma RunTasksFrame(cfg: Config, st: State, step: nat, tasks: seq<Task>, first: nat, iter: nat)
    ensures Frame(Registers(tasks), st, RunTasks(cfg, st, step, tasks, first, iter).state)
    ensures Recorded(cfg, st, RunTasks(cfg, st, step, tasks, first, iter))
  {
    var run := TaskRunner(cfg, step, tasks, first, iter);
    forall s, i: nat | i < |tasks| ensures Frame(Registers(tasks), s, run(s, i).state) && Recorded(cfg, s, run(s, i)) {
      TaskFrame(cfg, s, TaskKey(step, first + i, iter), tasks[i]);
      RegistersHold(tasks, i);
    }
    ChainFrame(cfg, Registers(tasks), run, st, |tasks|);
  }

  lemma ItemVarsAreItems(item: LoopItem)
    ensures forall name :: name in ItemVars(item) ==> IsItemVar(name)
  {
    forall name | name in ItemVars(item) ensures IsItemVar(name) {
      if item.Structured? {
        var field :| field in item.row && name == ITEM_FIELD + field;
        assert ITEM_FIELD <= name;
      }
    }
  }

  lemma ItemFrame(cfg: Config, st: State, step: nat, tasks: seq<Task>, item: LoopItem, iter: nat)
    ensures Frame(Registers(tasks), st, RunItem(cfg, st, step, tasks, item, iter).state)
    ensures Recorded(cfg, st, RunItem(cfg, st, step, tasks, item, iter))
  {
    RunTasksFrame(cfg, Inject(st, item), step, tasks, 0, iter);
    ItemVarsAreItems(item);
  }

  lemma ItemsFrame(cfg: Config, st: State, step: nat, tasks: seq<Task>, items: seq<LoopItem>)
    ensures Frame(Registers(tasks), st, RunItems(cfg, st, step, tasks, items).state)
    ensures Recorded(cfg, st, RunItems(cfg, st, step, tasks, items))
  {
    var run := ItemRunner(cfg, step, tasks, items);
    forall s, i: nat | i < |items| ensures Frame(Registers(tasks), s, run(s, i).state) && Recorded(cfg, s, run(s, i)) {
      ItemFrame(cfg, s, step, tasks, items[i], i);
    }
    ChainFrame(cfg, Registers(tasks), run, st, |items|);
  }

  lemma BodyFrame(cfg: Config, st: State, step: nat, s: Step)
    ensures Frame(Registers(s.tasks), st, RunBody(cfg, st, step, s).state)
    ensures Recorded(cfg, st, RunBody(cfg, st, step, s))
  {
    match s.loop
    case None => RunTasksFrame(cfg, st, step, s.tasks, 0, 0);
    case Some(source) =>
      var st1 := st.(loopedUnknown := st.loopedUnknown || LoopsOverUnknown(cfg, st, source));
      match ResolveItems(source, st.vars, cfg.collections)
      case Err(_) =>
      case Ok(items) => ItemsFrame(cfg, st1, step, s.tasks, items);
  }

  lemma {:induction false} SkipAllFrame(st: State, tasks: seq<Task>, decided: bool)
    ensures Frame(Registers(tasks), st, SkipAll(st, tasks, decided))
    ensures decided && st.unknown == {} ==> SkipAll(st, tasks, decided).unknown == {}
    ensures SkipAll(st, tasks, decided) == st.(vars := SkipAll(st, tasks, decided).vars, unknown := SkipAll(st, tasks, decided).unknown)
  {
    if tasks != [] {
      var before := SkipAll(st, tasks[..|tasks| - 1], decided);
      SkipAllFrame(st, tasks[..|tasks| - 1], decided);
      SkipFrame(before, tasks[|tasks| - 1].register, decided);
      FrameThrough(Registers(tasks[..|tasks| - 1]), Names(tasks[|tasks| - 1].register), st, before,
                   SkipAll(st, tasks, decided));
    }
  }

  lemma RescueFrame(cfg: Config, step: nat, s: Step, body: Ran)
    requires body.failure.Some? ==> body.state.failed
    ensures Frame(ERRORS + Registers(s.rescue), body.state, RunRescue(cfg, step, s, body).state)
    ensures RunRescue(cfg, step, s, body).failure.Some? ==> RunRescue(cfg, step, s, body).state.failed
    ensures !cfg.dry && body.state.unknown == {} ==> RunRescue(cfg, step, s, body).state.unknown == {}
  {
    var st := AfterBody(cfg, body);
    assert Frame(ERRORS, body.state, st);
    if s.rescue == [] {
      FrameThrough(ERRORS, Registers(s.rescue), body.state, st, st);
    } else if body.failure.Some? {
      RunTasksFrame(cfg, st, step, s.rescue, FirstTask(ShapeOf(s), Rescue), 0);
      FrameThrough(ERRORS, Registers(s.rescue), body.state, st, RunRescue(cfg, step, s, body).state);
    } else {
      SkipAllFrame(st, s.rescue, !cfg.dry);
      FrameThrough(ERRORS, Registers(s.rescue), body.state, st, RunRescue(cfg, step, s, body).state);
    }
  }

  lemma AlwaysFrame(cfg: Config, step: nat, s: Step, rescued: Ran)
    requires rescued.failure.Some? ==> rescued.state.failed
    ensures Frame(Registers(s.always), rescued.state, RunAlways(cfg, step, s, rescued).state)
    ensures RunAlways(cfg, step, s, rescued).failure.Some? ==> RunAlways(cfg, step, s, rescued).state.failed
    ensures !cfg.dry && rescued.state.unknown == {} ==> RunAlways(cfg, step, s, rescued).state.unknown == {}
  {
    if s.always != [] {
      RunTasksFrame(cfg, rescued.state, step, s.always, FirstTask(ShapeOf(s), Always), 0);
    }
  }

  function StepRegisters(s: Step): set<string> {
    Registers(s.tasks) + Registers(s.rescue) + Registers(s.always)
  }

  /** A started step changes what its tasks register, and leaves no failure variable. */
  lemma StartedFrame(cfg: Config, st: State, step: nat, s: Step)
    ensures var ran := RunStarted(cfg, st, step, s);
            && Frame(ERRORS + StepRegisters(s), st, ran.state) && Recorded(cfg, st, ran)
            && forall name :: name in ERRORS ==> name !in ran.state.vars && name !in ran.state.unknown
  {
    var body := RunBody(cfg, st, step, s);
    BodyFrame(cfg, st, step, s);
    var rescued := RunRescue(cfg, step, s, body);
    RescueFrame(cfg, step, s, body);
    FrameThrough(Registers(s.tasks), ERRORS + Registers(s.rescue), st, body.state, rescued.state);
    var always := RunAlways(cfg, step, s, rescued);
    AlwaysFrame(cfg, step, s, rescued);
    var soFar := Registers(s.tasks) + (ERRORS + Registers(s.rescue));
    FrameThrough(soFar, Registers(s.always), st, rescued.state, always.state);
    assert Frame(ERRORS, always.state, Withdraw(always.state));
    FrameThrough(soFar + Registers(s.always), ERRORS, st, always.state, Withdraw(always.state));
    assert soFar + Registers(s.always) + ERRORS == ERRORS + StepRegisters(s);
  }

  // ---- Tasks ----

  lemma OutputsMatch(cfg: Config, off: set<string>, p: State, r: State, register: Option<string>, a: Applied)
    requires Sim(off, p, r) && RegisterOutput(Wet(cfg), r, register, a).failure.None?
    ensures Sim(off, RegisterOutput(Dry(cfg), p, register, a).state, RegisterOutput(Wet(cfg), r, register, a).state)
  {
    var pNext, rNext := RegisterOutput(Dry(cfg), p, register, a).state, RegisterOutput(Wet(cfg), r, register, a).state;
    forall name | name !in off ensures SimAt(pNext, rNext, name) {
      assert SimAt(p, r, name);
    }
  }

  /** `Sim` is about the variables only. */
  lemma SimLooksAtVars(off: set<string>, p: State, r: State, p2: State, r2: State)
    requires Sim(off, p, r) && p2.vars == p.vars && p2.unknown == p.unknown
    requires r2.vars == r.vars && r2.unknown == r.unknown
    ensures Sim(off, p2, r2)
  {
    forall name | name !in off ensures SimAt(p2, r2, name) {
      assert SimAt(p, r, name);
    }
  }

  lemma ChecksMatch(cfg: Config, off: set<string>, p: State, r: State, key: TaskKey, task: Task)
    requires Related(cfg, off, p, r)
    requires CheckAndApply(Dry(cfg), p, key, task).failure.None? && CheckAndApply(Wet(cfg), r, key, task).failure.None?
    ensures Related(cfg, off, CheckAndApply(Dry(cfg), p, key, task).state, CheckAndApply(Wet(cfg), r, key, task).state)
  {
    match cfg.verdict(key)
    case Satisfied =>
      if task.register.Some? {
        KnownRegistersMatch(off, p, r, task.register.value);
      }
    case Pending(Some(a)) =>
      PendingMatch(cfg, off, p, r, key, task, a);
      CountsMatchAfter(cfg, p, r, key, task, a);
    case _ =>
  }

  lemma PendingMatch(cfg: Config, off: set<string>, p: State, r: State, key: TaskKey, task: Task, a: Applied)
    requires Sim(off, p, r) && cfg.verdict(key) == Pending(Some(a)) && CheckAndApply(Wet(cfg), r, key, task).failure.None?
    ensures Sim(off, CheckAndApply(Dry(cfg), p, key, task).state, CheckAndApply(Wet(cfg), r, key, task).state)
  {
    var p1, r1 := CountChange(p, true && !task.neverChanges), CountChange(r, a.changed && !task.neverChanges);
    SimLooksAtVars(off, p, r, p1, r1);
    OutputsMatch(cfg, off, p1, r1, task.register, a);
  }

  lemma KnownRegistersMatch(off: set<string>, p: State, r: State, name: string)
    requires Sim(off, p, r)
    ensures Sim(off, Register(p, name, "", true), Register(r, name, "", true))
  {
    forall n | n !in off ensures SimAt(Register(p, name, "", true), Register(r, name, "", true), n) {
      assert SimAt(p, r, n);
    }
  }

  lemma CountsMatchAfter(cfg: Config, p: State, r: State, key: TaskKey, task: Task, a: Applied)
    requires CountsMatch(cfg, p, r) && cfg.verdict(key) == Pending(Some(a))
    ensures CountsMatch(cfg, CheckAndApply(Dry(cfg), p, key, task).state, CheckAndApply(Wet(cfg), r, key, task).state)
  {
  }

  lemma HostsMatch(cfg: Config, off: set<string>, p: State, r: State, key: TaskKey, task: Task)
    requires Related(cfg, off, p, r)
    requires RunHost(Dry(cfg), p, key, task).failure.None? && RunHost(Wet(cfg), r, key, task).failure.None?
    ensures Related(cfg, off, RunHost(Dry(cfg), p, key, task).state, RunHost(Wet(cfg), r, key, task).state)
  {
    var a := cfg.verdict(key).applied.value;
    OutputsMatch(cfg, off, p, r, task.register, a);
    SimLooksAtVars(off, RegisterOutput(Dry(cfg), p, task.register, a).state,
                   RegisterOutput(Wet(cfg), r, task.register, a).state,
                   RunHost(Dry(cfg), p, key, task).state, RunHost(Wet(cfg), r, key, task).state);
  }

  lemma ModulesMatch(cfg: Config, off: set<string>, p: State, r: State, key: TaskKey, task: Task)
    requires Related(cfg, off, p, r)
    requires RunModule(Dry(cfg), p, key, task).failure.None? && RunModule(Wet(cfg), r, key, task).failure.None?
    ensures Related(cfg, off, RunModule(Dry(cfg), p, key, task).state, RunModule(Wet(cfg), r, key, task).state)
  {
    if task.kind.HostModule? {
      HostsMatch(cfg, off, p, r, key, task);
    } else {
      ChecksMatch(cfg, off, p, r, key, task);
    }
  }

  lemma SkipsMatch(off: set<string>, p: State, r: State, register: Option<string>, decided: bool)
    requires Sim(off, p, r)
    ensures Sim(off - Names(register), SkipRegister(p, register, decided), SkipRegister(r, register, true))
  {
    var pNext, rNext := SkipRegister(p, register, decided), SkipRegister(r, register, true);
    forall name | name !in off - Names(register) ensures SimAt(pNext, rNext, name) {
      if name !in Names(register) {
        assert SimAt(p, r, name);
      }
    }
  }

  /** A preview that could not decide a task holds its register unknown, whatever the run did. */
  lemma UndecidedTask(off: set<string>, p: State, r: State, register: Option<string>, rNext: State)
    requires Sim(off, p, r) && TaskOnly(Names(register), r, rNext) && rNext.unknown == {}
    ensures Sim(off - Names(register), SkipRegister(p, register, false), rNext)
  {
    forall name | name !in off - Names(register) ensures SimAt(SkipRegister(p, register, false), rNext, name) {
      if name !in Names(register) {
        assert SimAt(p, r, name);
      }
    }
  }

  lemma SkippedMatch(cfg: Config, off: set<string>, p: State, r: State, task: Task)
    requires Related(cfg, off, p, r)
    ensures Related(cfg, off, SkipRegister(p.(skipped := p.skipped + 1), task.register, true),
                    SkipRegister(r.(skipped := r.skipped + 1), task.register, true))
  {
    var ps, rs := p.(skipped := p.skipped + 1), r.(skipped := r.skipped + 1);
    SimLooksAtVars(off, p, r, ps, rs);
    SkipsMatch(off, ps, rs, task.register, true);
  }

  lemma UndecidedMatch(cfg: Config, off: set<string>, p: State, r: State, key: TaskKey, task: Task)
    requires Related(cfg, off, p, r)
    ensures Related(cfg, off, SkipRegister(p.(skipped := p.skipped + 1, undecided := true), task.register, false),
                    RunTask(Wet(cfg), r, key, task).state)
  {
    var ps := p.(skipped := p.skipped + 1, undecided := true);
    SimLooksAtVars(off, p, r, ps, r);
    TaskFrame(Wet(cfg), r, key, task);
    UndecidedTask(off, ps, r, task.register, RunTask(Wet(cfg), r, key, task).state);
  }

  /** What a task that does not fail did at its gate. */
  lemma TaskGoes(cfg: Config, st: State, key: TaskKey, task: Task) returns (gate: Gate)
    requires RunTask(cfg, st, key, task).failure.None?
    ensures GateOf(task.when, ScopeOf(cfg, st)) == Ok(gate)
    ensures gate.Run? ==> RunTask(cfg, st, key, task) == RunModule(cfg, st, key, task)
    ensures gate.Skip? ==>
              RunTask(cfg, st, key, task).state
              == SkipRegister(st.(skipped := st.skipped + 1, undecided := st.undecided || !gate.decided), task.register, gate.decided)
  {
    gate := GateOf(task.when, ScopeOf(cfg, st)).value;
  }

  lemma GatesAgree(cfg: Config, off: set<string>, p: State, r: State, when: Option<Groups>)
    requires Sim(off, p, r) && Avoids(when, off)
    requires GateOf(when, ScopeOf(Dry(cfg), p)) != Ok(Skip(false)) && GateOf(when, ScopeOf(Wet(cfg), r)).Ok?
    ensures GateOf(when, ScopeOf(Wet(cfg), r)) == GateOf(when, ScopeOf(Dry(cfg), p))
  {
    GatesMatch(cfg, off, p, r, when);
  }

  /** One task keeps the relation, unless it fails. */
  lemma TasksMatchOne(cfg: Config, off: set<string>, p: State, r: State, key: TaskKey, task: Task)
    requires Related(cfg, off, p, r) && Avoids(task.when, off)
    requires RunTask(Dry(cfg), p, key, task).failure.None? && RunTask(Wet(cfg), r, key, task).failure.None?
    ensures Related(cfg, off, RunTask(Dry(cfg), p, key, task).state, RunTask(Wet(cfg), r, key, task).state)
  {
    var gp := TaskGoes(Dry(cfg), p, key, task);
    if gp == Skip(false) {
      UndecidedMatch(cfg, off, p, r, key, task);
    } else {
      var gr := TaskGoes(Wet(cfg), r, key, task);
      GatesAgree(cfg, off, p, r, task.when);
      if gp.Run? {
        ModulesMatch(cfg, off, p, r, key, task);
      } else {
        SkippedMatch(cfg, off, p, r, task);
      }
    }
  }

  /** Each part of two chains keeps them related, unless it fails. */
  ghost predicate PartsRelate(cfg: Config, off: set<string>, runP: (State, nat) -> Ran, runR: (State, nat) -> Ran) {
    forall p, r, i: nat {:trigger runP(p, i), runR(r, i)} ::
      Related(cfg, off, p, r) && runP(p, i).failure.None? && runR(r, i).failure.None? ==>
        Related(cfg, off, runP(p, i).state, runR(r, i).state)
  }

  /** The relation holds after every part of a chain in which nothing fails. */
  lemma {:induction false} ChainsMatch(
    cfg: Config, off: set<string>, runP: (State, nat) -> Ran, runR: (State, nat) -> Ran, p: State, r: State, n: nat)
    requires Related(cfg, off, p, r) && PartsRelate(cfg, off, runP, runR)
    requires Chain(runP, p, n).failure.None? && Chain(runR, r, n).failure.None?
    ensures Related(cfg, off, Chain(runP, p, n).state, Chain(runR, r, n).state)
  {
    if n > 0 {
      ChainsMatch(cfg, off, runP, runR, p, r, n - 1);
    }
  }

  ghost predicate TasksAvoid(tasks: seq<Task>, off: set<string>) {
    forall i :: 0 <= i < |tasks| ==> Avoids(tasks[i].when, off)
  }

  lemma TaskPartsRelate(cfg: Config, off: set<string>, step: nat, tasks: seq<Task>, first: nat, iter: nat)
    requires TasksAvoid(tasks, off)
    ensures PartsRelate(cfg, off, TaskRunner(Dry(cfg), step, tasks, first, iter),
                        TaskRunner(Wet(cfg), step, tasks, first, iter))
  {
    var runP, runR := TaskRunner(Dry(cfg), step, tasks, first, iter), TaskRunner(Wet(cfg), step, tasks, first, iter);
    forall sp, sr, i: nat | Related(cfg, off, sp, sr) && runP(sp, i).failure.None? && runR(sr, i).failure.None?
      ensures Related(cfg, off, runP(sp, i).state, runR(sr, i).state)
    {
      if i < |tasks| {
        TasksMatchOne(cfg, off, sp, sr, TaskKey(step, first + i, iter), tasks[i]);
      }
    }
  }

  /** The relation holds before each task of a list both runs get to. */
  lemma RelatedAtTask(
    cfg: Config, off: set<string>, p: State, r: State, step: nat, tasks: seq<Task>, first: nat, iter: nat, n: nat)
    requires Related(cfg, off, p, r) && TasksAvoid(tasks, off)
    requires Chain(TaskRunner(Dry(cfg), step, tasks, first, iter), p, n).failure.None?
    requires Chain(TaskRunner(Wet(cfg), step, tasks, first, iter), r, n).failure.None?
    ensures Related(cfg, off, Chain(TaskRunner(Dry(cfg), step, tasks, first, iter), p, n).state,
                    Chain(TaskRunner(Wet(cfg), step, tasks, first, iter), r, n).state)
  {
    TaskPartsRelate(cfg, off, step, tasks, first, iter);
    ChainsMatch(cfg, off, TaskRunner(Dry(cfg), step, tasks, first, iter), TaskRunner(Wet(cfg), step, tasks, first, iter),
                p, r, n);
  }

  // ---- Loops ----

  lemma InjectMatch(off: set<string>, p: State, r: State, item: LoopItem)
    requires Sim(off, p, r)
    ensures Sim(off, Inject(p, item), Inject(r, item))
  {
    forall name | name !in off ensures SimAt(Inject(p, item), Inject(r, item), name) {
      assert SimAt(p, r, name);
    }
  }

  lemma EjectMatch(off: set<string>, p: State, r: State, item: LoopItem)
    requires Sim(off, p, r)
    ensures Sim(off, Eject(p, item), Eject(r, item))
  {
    forall name | name !in off ensures SimAt(Eject(p, item), Eject(r, item), name) {
      assert SimAt(p, r, name);
    }
  }

  lemma ItemsMatchOne(
    cfg: Config, off: set<string>, p: State, r: State, step: nat, tasks: seq<Task>, item: LoopItem, iter: nat)
    requires Related(cfg, off, p, r) && TasksAvoid(tasks, off)
    requires RunItem(Dry(cfg), p, step, tasks, item, iter).failure.None?
    requires RunItem(Wet(cfg), r, step, tasks, item, iter).failure.None?
    ensures Related(cfg, off, RunItem(Dry(cfg), p, step, tasks, item, iter).state,
                    RunItem(Wet(cfg), r, step, tasks, item, iter).state)
  {
    var pi, ri := Inject(p, item), Inject(r, item);
    InjectMatch(off, p, r, item);
    RelatedAtTask(cfg, off, pi, ri, step, tasks, 0, iter, |tasks|);
    EjectMatch(off, RunTasks(Dry(cfg), pi, step, tasks, 0, iter).state, RunTasks(Wet(cfg), ri, step, tasks, 0, iter).state, item);
  }

  lemma ItemPartsRelate(cfg: Config, off: set<string>, step: nat, tasks: seq<Task>, items: seq<LoopItem>)
    requires TasksAvoid(tasks, off)
    ensures PartsRelate(cfg, off, ItemRunner(Dry(cfg), step, tasks, items), ItemRunner(Wet(cfg), step, tasks, items))
  {
    var runP, runR := ItemRunner(Dry(cfg), step, tasks, items), ItemRunner(Wet(cfg), step, tasks, items);
    forall sp, sr, i: nat | Related(cfg, off, sp, sr) && runP(sp, i).failure.None? && runR(sr, i).failure.None?
      ensures Related(cfg, off, runP(sp, i).state, runR(sr, i).state)
    {
      if i < |items| {
        ItemsMatchOne(cfg, off, sp, sr, step, tasks, items[i], i);
      }
    }
  }

  lemma RelatedAtItem(
    cfg: Config, off: set<string>, p: State, r: State, step: nat, tasks: seq<Task>, items: seq<LoopItem>, n: nat)
    requires Related(cfg, off, p, r) && TasksAvoid(tasks, off)
    requires Chain(ItemRunner(Dry(cfg), step, tasks, items), p, n).failure.None?
    requires Chain(ItemRunner(Wet(cfg), step, tasks, items), r, n).failure.None?
    ensures Related(cfg, off, Chain(ItemRunner(Dry(cfg), step, tasks, items), p, n).state,
                    Chain(ItemRunner(Wet(cfg), step, tasks, items), r, n).state)
  {
    ItemPartsRelate(cfg, off, step, tasks, items);
    ChainsMatch(cfg, off, ItemRunner(Dry(cfg), step, tasks, items), ItemRunner(Wet(cfg), step, tasks, items), p, r, n);
  }

  // ---- Bodies ----

  /** A body that looks at nothing in `off` to decide what it runs, and loops over nothing the
      preview `p` does not know. */
  ghost predicate BodySteady(cfg: Config, off: set<string>, p: State, s: Step) {
    && TasksAvoid(s.tasks, off)
    && match s.loop
       case None => true
       case Some(source) =>
         !LoopsOverUnknown(cfg, p, source)
         && (source.LoopVariable? && source.name !in cfg.collections ==> source.name !in off)
  }

  /** Such a body has the same items in both. */
  lemma SameItems(cfg: Config, off: set<string>, p: State, r: State, s: Step)
    requires Sim(off, p, r) && BodySteady(cfg, off, p, s) && s.loop.Some?
    ensures ResolveItems(s.loop.value, p.vars, cfg.collections) == ResolveItems(s.loop.value, r.vars, cfg.collections)
    ensures !LoopsOverUnknown(cfg, r, s.loop.value)
  {
    var source := s.loop.value;
    if source.LoopVariable? && source.name !in cfg.collections {
      assert SimAt(p, r, source.name);
    }
  }

  /** A loop up to just before a task of one of its iterations. */
  function LoopTo(cfg: Config, st: State, step: nat, tasks: seq<Task>, items: seq<LoopItem>, iter: nat, task: nat): Ran {
    var before := Chain(ItemRunner(cfg, step, tasks, items), st, iter);
    if before.failure.Some? || iter >= |items| then before
    else Chain(TaskRunner(cfg, step, tasks, 0, iter), Inject(before.state, items[iter]), task)
  }

  lemma LoopsMatchAt(
    cfg: Config, off: set<string>, p: State, r: State, step: nat, tasks: seq<Task>, items: seq<LoopItem>,
    iter: nat, task: nat)
    requires Related(cfg, off, p, r) && TasksAvoid(tasks, off)
    requires LoopTo(Dry(cfg), p, step, tasks, items, iter, task).failure.None?
    requires LoopTo(Wet(cfg), r, step, tasks, items, iter, task).failure.None?
    ensures Related(cfg, off, LoopTo(Dry(cfg), p, step, tasks, items, iter, task).state,
                    LoopTo(Wet(cfg), r, step, tasks, items, iter, task).state)
  {
    RelatedAtItem(cfg, off, p, r, step, tasks, items, iter);
    if iter < |items| {
      var pi := Chain(ItemRunner(Dry(cfg), step, tasks, items), p, iter).state;
      var ri := Chain(ItemRunner(Wet(cfg), step, tasks, items), r, iter).state;
      InjectMatch(off, pi, ri, items[iter]);
      RelatedAtTask(cfg, off, Inject(pi, items[iter]), Inject(ri, items[iter]), step, tasks, 0, iter, task);
    }
  }

  /** A body up to just before a task of it, in a given iteration of its loop. */
  function BodyTo(cfg: Config, st: State, step: nat, s: Step, iter: nat, task: nat): Ran {
    if GateShut(cfg, st, step, s) then Fail(st, UntilFailed)
    else
      match s.loop
      case None => Chain(TaskRunner(cfg, step, s.tasks, 0, 0), st, task)
      case Some(source) =>
        var st1 := st.(loopedUnknown := st.loopedUnknown || LoopsOverUnknown(cfg, st, source));
        match ResolveItems(source, st.vars, cfg.collections)
        case Err(why) => Fail(st1, why)
        case Ok(items) => LoopTo(cfg, st1, step, s.tasks, items, iter, task)
  }

  lemma BodiesMatchAt(cfg: Config, off: set<string>, p: State, r: State, step: nat, s: Step, iter: nat, task: nat)
    requires Related(cfg, off, p, r) && BodySteady(cfg, off, p, s)
    requires BodyTo(Dry(cfg), p, step, s, iter, task).failure.None?
    requires BodyTo(Wet(cfg), r, step, s, iter, task).failure.None?
    ensures Related(cfg, off, BodyTo(Dry(cfg), p, step, s, iter, task).state, BodyTo(Wet(cfg), r, step, s, iter, task).state)
  {
    match s.loop
    case None => RelatedAtTask(cfg, off, p, r, step, s.tasks, 0, 0, task);
    case Some(source) =>
      SameItems(cfg, off, p, r, s);
      var items := ResolveItems(source, p.vars, cfg.collections).value;
      assert p.(loopedUnknown := p.loopedUnknown || LoopsOverUnknown(Dry(cfg), p, source)) == p;
      assert r.(loopedUnknown := r.loopedUnknown || LoopsOverUnknown(Wet(cfg), r, source)) == r;
      LoopsMatchAt(cfg, off, p, r, step, s.tasks, items, iter, task);
  }

  /** A body run to its end is a body up to past its last task. */
  lemma BodyToEnd(cfg: Config, st: State, step: nat, s: Step) returns (iter: nat)
    ensures BodyTo(cfg, st, step, s, iter, |s.tasks|) == RunBody(cfg, st, step, s)
    ensures s.loop.Some? && ResolveItems(s.loop.value, st.vars, cfg.collections).Ok? ==>
              iter == |ResolveItems(s.loop.value, st.vars, cfg.collections).value|
    ensures s.loop.None? || ResolveItems(s.loop.value, st.vars, cfg.collections).Err? ==> iter == 0
  {
    iter := match s.loop
            case None => 0
            case Some(source) =>
              match ResolveItems(source, st.vars, cfg.collections)
              case Err(_) => 0
              case Ok(items) => |items|;
  }

  lemma BodiesMatch(cfg: Config, off: set<string>, p: State, r: State, step: nat, s: Step)
    requires Related(cfg, off, p, r) && BodySteady(cfg, off, p, s)
    requires RunBody(Dry(cfg), p, step, s).failure.None? && RunBody(Wet(cfg), r, step, s).failure.None?
    ensures Related(cfg, off, RunBody(Dry(cfg), p, step, s).state, RunBody(Wet(cfg), r, step, s).state)
  {
    if s.loop.Some? {
      SameItems(cfg, off, p, r, s);
    }
    var iter := BodyToEnd(Dry(cfg), p, step, s);
    var same := BodyToEnd(Wet(cfg), r, step, s);
    BodiesMatchAt(cfg, off, p, r, step, s, iter, |s.tasks|);
  }
}
