/**
 A preview and its run over whole plans: what is in doubt after each step, and that everything
 else stays related, at every task both get to.
 */
module PreviewPlan {
  import opened Wrappers
  import opened Condition
  import opened NodeRunner
  import opened Preview
  import opened ReservedNames
  import opened TaskKeys

  /*
   A failure that `rescue` makes good lets the run go on, but the preview, which did not fail
   there, has gone another way. `StepDoubt` says which names a step puts in doubt, from what the
   preview did and whether the step's tasks failed in the run: those its tasks register, when
   they failed in one of the two, looked at a name in doubt or looped over an unknown variable;
   not those `rescue` registers, which the preview holds unknown, unless the preview failed too.
   A step the preview skips settles what it registers.
   */

  // ---- Reserved names ----

  /** Between steps no reserved variable is bound. */
  ghost predicate Unreserved(s: State) {
    forall name :: IsItemVar(name) || IsErrorVar(name) ==> name !in s.vars && name !in s.unknown
  }

  /** Between a step's sections no loop variable is. */
  ghost predicate NoItems(s: State) {
    forall name :: IsItemVar(name) ==> name !in s.vars
  }

  /** The plan's parser lets no task register a name that starts with `@`. */
  predicate WellNamed(s: Step) {
    forall name :: name in StepRegisters(s) ==> !("@" <= name)
  }

  ghost predicate NoItemNames(names: set<string>) {
    forall name :: name in names ==> !IsItemVar(name)
  }

  lemma SectionNames(s: Step)
    requires WellNamed(s)
    ensures NoItemNames(Registers(s.tasks)) && NoItemNames(ERRORS + Registers(s.rescue)) && NoItemNames(Registers(s.always))
    ensures NoItemNames(StepRegisters(s))
    ensures forall name :: name in StepRegisters(s) ==> name !in ERRORS
  {
    forall name | name in StepRegisters(s) ensures !IsItemVar(name) && name !in ERRORS {
      if IsItemVar(name) || IsErrorVar(name) {
        ReservedStartWithAt(name);
      }
    }
    ErrorsAreNoItems();
  }

  lemma FrameNoItems(names: set<string>, s: State, sNext: State)
    requires Frame(names, s, sNext) && NoItemNames(names) && NoItems(s)
    ensures NoItems(sNext)
  {
    forall name | IsItemVar(name) ensures name !in sNext.vars {
      assert name !in names;
    }
  }

  /** Outside the frames of two moves, what was related still is. */
  lemma FramesKeepSim(off: set<string>, names: set<string>, p: State, r: State, pNext: State, rNext: State)
    requires Sim(off, p, r) && NoItems(p) && NoItems(r) && rNext.unknown == {}
    requires Frame(names, p, pNext) && Frame(names, r, rNext)
    ensures Sim(off + names, pNext, rNext)
  {
    forall name | name !in off + names ensures SimAt(pNext, rNext, name) {
      assert SimAt(p, r, name);
      assert name !in names;
    }
  }

  // ---- A step's own tasks ----

  /** The own tasks went the same way in both, as far as can be told without what is in doubt. */
  ghost predicate BodiesAlike(cfg: Config, off: set<string>, p: State, r: State, step: nat, s: Step) {
    && RunBody(Dry(cfg), p, step, s).failure.None? && RunBody(Wet(cfg), r, step, s).failure.None?
    && BodySteady(cfg, off, p, s)
  }

  ghost function BodyDoubt(cfg: Config, off: set<string>, p: State, r: State, step: nat, s: Step): set<string> {
    if BodiesAlike(cfg, off, p, r, step, s) then off else off + Registers(s.tasks)
  }

  lemma UnknownLoopIsSeen(cfg: Config, st: State, step: nat, s: Step)
    requires s.loop.Some? && LoopsOverUnknown(cfg, st, s.loop.value)
    ensures RunBody(cfg, st, step, s).state.loopedUnknown || RunBody(cfg, st, step, s).state.failed
  {
    BodyFrame(cfg, st, step, s);
    if !GateShut(cfg, st, step, s) {
      var st1 := st.(loopedUnknown := st.loopedUnknown || LoopsOverUnknown(cfg, st, s.loop.value));
      match ResolveItems(s.loop.value, st.vars, cfg.collections)
      case Err(_) =>
      case Ok(items) => ItemsFrame(cfg, st1, step, s.tasks, items);
    }
  }

  lemma UnlikeBodiesBlur(cfg: Config, off: set<string>, p: State, r: State, step: nat, s: Step)
    requires Related(cfg, off, p, r) && !BodiesAlike(cfg, off, p, r, step, s)
    ensures Blurred(RunBody(Dry(cfg), p, step, s).state, RunBody(Wet(cfg), r, step, s).state)
  {
    BodyFrame(Dry(cfg), p, step, s);
    BodyFrame(Wet(cfg), r, step, s);
    if s.loop.Some? && LoopsOverUnknown(cfg, p, s.loop.value) {
      UnknownLoopIsSeen(Dry(cfg), p, step, s);
    } else if off == {} {
      assert BodySteady(cfg, off, p, s);
    }
  }

  lemma BodyKeeps(cfg: Config, off: set<string>, p: State, r: State, step: nat, s: Step)
    requires Related(cfg, off, p, r) && NoItems(p) && NoItems(r)
    ensures Related(cfg, BodyDoubt(cfg, off, p, r, step, s),
                    RunBody(Dry(cfg), p, step, s).state, RunBody(Wet(cfg), r, step, s).state)
  {
    if BodiesAlike(cfg, off, p, r, step, s) {
      BodiesMatch(cfg, off, p, r, step, s);
    } else {
      UnlikeBodiesBlur(cfg, off, p, r, step, s);
      BodyFrame(Dry(cfg), p, step, s);
      BodyFrame(Wet(cfg), r, step, s);
      FramesKeepSim(off, Registers(s.tasks), p, r, RunBody(Dry(cfg), p, step, s).state, RunBody(Wet(cfg), r, step, s).state);
    }
  }

  // ---- `rescue` ----

  /** `rescue` ran to its end in both and looked at nothing in doubt. */
  ghost predicate RescuesAlike(cfg: Config, off: set<string>, step: nat, s: Step, bp: Ran, br: Ran) {
    && bp.failure.Some? && br.failure.Some? && TasksAvoid(s.rescue, off + ERRORS)
    && RunRescue(Dry(cfg), step, s, bp).failure.None? && RunRescue(Wet(cfg), step, s, br).failure.None?
  }

  ghost function RescueDoubt(cfg: Config, off: set<string>, step: nat, s: Step, bp: Ran, br: Ran): set<string> {
    if bp.failure.None? then off - Registers(s.rescue)
    else if RescuesAlike(cfg, off, step, s, bp, br) then off + ERRORS
    else off + ERRORS + Registers(s.rescue)
  }

  lemma {:induction false} SkipAllLeavesUnknown(st: State, tasks: seq<Task>)
    ensures forall name :: name in Registers(tasks) ==>
              name in SkipAll(st, tasks, false).unknown && name !in SkipAll(st, tasks, false).vars
  {
    if tasks != [] {
      SkipAllLeavesUnknown(st, tasks[..|tasks| - 1]);
    }
  }

  /** What the preview leaves behind when it skips tasks it cannot decide about: whatever they
      do in the run, it claims nothing of what they register. */
  lemma SkipsClaimNothing(off: set<string>, p: State, r: State, tasks: seq<Task>, rNext: State)
    requires Sim(off, p, r) && NoItems(p) && NoItems(r)
    requires Frame(Registers(tasks), r, rNext) && rNext.unknown == {}
    ensures Sim(off - Registers(tasks), SkipAll(p, tasks, false), rNext)
  {
    var pNext := SkipAll(p, tasks, false);
    SkipAllLeavesUnknown(p, tasks);
    SkipAllFrame(p, tasks, false);
    forall name | name !in off - Registers(tasks) ensures SimAt(pNext, rNext, name) {
      if name !in Registers(tasks) {
        assert SimAt(p, r, name);
      }
    }
  }

  /** A preview's failure variables claim nothing either. */
  lemma ErrorsClaimNothing(off: set<string>, p: State, r: State, rNext: State)
    requires Sim(off, p, r) && (forall name :: name in ERRORS ==> name !in p.vars)
    requires rNext.unknown == {}
    requires forall name :: name !in ERRORS ==> (name in rNext.vars <==> name in r.vars) && (name in r.vars ==> rNext.vars[name] == r.vars[name])
    ensures Sim(off, ErrorsUnknown(p), rNext)
  {
    forall name | name !in off ensures SimAt(ErrorsUnknown(p), rNext, name) {
      assert SimAt(p, r, name);
    }
  }

  lemma RunRescueIs(cfg: Config, step: nat, s: Step, body: Ran)
    ensures body.failure.None? ==> RunRescue(cfg, step, s, body) == Ran(SkipAll(AfterBody(cfg, body), s.rescue, !cfg.dry), None)
    ensures body.failure.Some? && s.rescue != [] ==>
              RunRescue(cfg, step, s, body)
              == RunTasks(cfg, AfterBody(cfg, body), step, s.rescue, FirstTask(ShapeOf(s), Rescue), 0)
    ensures s.rescue == [] ==> RunRescue(cfg, step, s, body) == Ran(AfterBody(cfg, body), body.failure)
  {
  }

  /** From the failure variables on, `rescue` changes what its tasks register. */
  lemma RescueOnlyRegisters(cfg: Config, step: nat, s: Step, body: Ran)
    ensures Frame(Registers(s.rescue), AfterBody(cfg, body), RunRescue(cfg, step, s, body).state)
    ensures !cfg.dry && body.state.unknown == {} ==> RunRescue(cfg, step, s, body).state.unknown == {}
  {
    var st := AfterBody(cfg, body);
    RunRescueIs(cfg, step, s, body);
    RunTasksFrame(cfg, st, step, s.rescue, FirstTask(ShapeOf(s), Rescue), 0);
    SkipAllFrame(st, s.rescue, !cfg.dry);
  }

  ghost predicate Ended(ran: Ran) {
    ran.failure.Some? ==> ran.state.failed
  }

  /** The preview did not fail: it skips `rescue`, whatever the run does there. */
  lemma SkippedRescueKeeps(cfg: Config, off: set<string>, step: nat, s: Step, bp: Ran, br: Ran)
    requires Sim(off, bp.state, br.state) && Unreserved(bp.state) && Unreserved(br.state) && bp.failure.None?
    ensures Sim(off - Registers(s.rescue), RunRescue(Dry(cfg), step, s, bp).state, RunRescue(Wet(cfg), step, s, br).state)
  {
    var p, r := AfterBody(Dry(cfg), bp), AfterBody(Wet(cfg), br);
    ErrorsClaimNothing(off, bp.state, br.state, r);
    RunRescueIs(Dry(cfg), step, s, bp);
    RescueOnlyRegisters(Wet(cfg), step, s, br);
    AfterBodyNoItems(Wet(cfg), br);
    SkipsClaimNothing(off, p, r, s.rescue, RunRescue(Wet(cfg), step, s, br).state);
  }

  lemma AfterBodyNoItems(cfg: Config, body: Ran)
    requires NoItems(body.state)
    ensures NoItems(AfterBody(cfg, body))
  {
    ErrorsAreNoItems();
  }

  /** Both ran `rescue`. */
  lemma RunRescuesKeep(cfg: Config, off: set<string>, step: nat, s: Step, bp: Ran, br: Ran)
    requires Related(cfg, off, bp.state, br.state) && RescuesAlike(cfg, off, step, s, bp, br)
    requires Ended(bp)
    ensures Related(cfg, off + ERRORS, RunRescue(Dry(cfg), step, s, bp).state, RunRescue(Wet(cfg), step, s, br).state)
  {
    var p, r := AfterBody(Dry(cfg), bp), AfterBody(Wet(cfg), br);
    ExposedStayRelated(cfg, off, bp, br);
    RunRescueIs(Dry(cfg), step, s, bp);
    RunRescueIs(Wet(cfg), step, s, br);
    RelatedAtTask(cfg, off + ERRORS, p, r, step, s.rescue, FirstTask(ShapeOf(s), Rescue), 0, |s.rescue|);
  }

  /** Both failed: only the failure variables may differ on top. */
  lemma ExposedStayRelated(cfg: Config, off: set<string>, bp: Ran, br: Ran)
    requires Related(cfg, off, bp.state, br.state) && bp.failure.Some? && br.failure.Some? && Ended(bp)
    ensures Related(cfg, off + ERRORS, AfterBody(Dry(cfg), bp), AfterBody(Wet(cfg), br))
  {
    var p, r := AfterBody(Dry(cfg), bp), AfterBody(Wet(cfg), br);
    forall name | name !in off + ERRORS ensures SimAt(p, r, name) {
      assert SimAt(bp.state, br.state, name);
    }
  }

  /** Neither counter moves where both skip `rescue`. */
  lemma RescueCounts(cfg: Config, step: nat, s: Step, bp: Ran, br: Ran)
    requires CountsMatch(cfg, bp.state, br.state) && Ended(bp) && Ended(br)
    ensures CountsMatch(cfg, RunRescue(Dry(cfg), step, s, bp).state, RunRescue(Wet(cfg), step, s, br).state)
    ensures Blurred(bp.state, br.state) ==>
              Blurred(RunRescue(Dry(cfg), step, s, bp).state, RunRescue(Wet(cfg), step, s, br).state)
  {
    RescueFrame(Dry(cfg), step, s, bp);
    RescueFrame(Wet(cfg), step, s, br);
    if bp.failure.None? && br.failure.None? {
      RunRescueIs(Dry(cfg), step, s, bp);
      RunRescueIs(Wet(cfg), step, s, br);
      SkipAllFrame(AfterBody(Dry(cfg), bp), s.rescue, false);
      SkipAllFrame(AfterBody(Wet(cfg), br), s.rescue, true);
    }
  }

  lemma RescueKeeps(cfg: Config, off: set<string>, step: nat, s: Step, bp: Ran, br: Ran)
    requires Related(cfg, off, bp.state, br.state) && Unreserved(bp.state) && Unreserved(br.state)
    requires Ended(bp) && Ended(br)
    ensures Related(cfg, RescueDoubt(cfg, off, step, s, bp, br),
                    RunRescue(Dry(cfg), step, s, bp).state, RunRescue(Wet(cfg), step, s, br).state)
  {
    RescueCounts(cfg, step, s, bp, br);
    if bp.failure.None? {
      SkippedRescueKeeps(cfg, off, step, s, bp, br);
    } else if RescuesAlike(cfg, off, step, s, bp, br) {
      RunRescuesKeep(cfg, off, step, s, bp, br);
    } else {
      RescueFrame(Dry(cfg), step, s, bp);
      RescueFrame(Wet(cfg), step, s, br);
      FramesKeepSim(off, ERRORS + Registers(s.rescue), bp.state, br.state,
                    RunRescue(Dry(cfg), step, s, bp).state, RunRescue(Wet(cfg), step, s, br).state);
      assert off + (ERRORS + Registers(s.rescue)) == off + ERRORS + Registers(s.rescue);
    }
  }

  // ---- `always` ----

  ghost predicate AlwaysAlike(cfg: Config, off: set<string>, step: nat, s: Step, rp: Ran, rr: Ran) {
    var first := FirstTask(ShapeOf(s), Always);
    && TasksAvoid(s.always, off)
    && RunTasks(Dry(cfg), rp.state, step, s.always, first, 0).failure.None?
    && RunTasks(Wet(cfg), rr.state, step, s.always, first, 0).failure.None?
  }

  ghost function AlwaysDoubt(cfg: Config, off: set<string>, step: nat, s: Step, rp: Ran, rr: Ran): set<string> {
    if AlwaysAlike(cfg, off, step, s, rp, rr) then off else off + Registers(s.always)
  }

  lemma RunAlwaysIs(cfg: Config, step: nat, s: Step, rescued: Ran)
    ensures RunAlways(cfg, step, s, rescued).state
            == RunTasks(cfg, rescued.state, step, s.always, FirstTask(ShapeOf(s), Always), 0).state
  {
  }

  lemma AlwaysKeeps(cfg: Config, off: set<string>, step: nat, s: Step, rp: Ran, rr: Ran)
    requires Related(cfg, off, rp.state, rr.state) && NoItems(rp.state) && NoItems(rr.state)
    ensures Related(cfg, AlwaysDoubt(cfg, off, step, s, rp, rr),
                    RunAlways(Dry(cfg), step, s, rp).state, RunAlways(Wet(cfg), step, s, rr).state)
  {
    var first := FirstTask(ShapeOf(s), Always);
    RunAlwaysIs(Dry(cfg), step, s, rp);
    RunAlwaysIs(Wet(cfg), step, s, rr);
    if AlwaysAlike(cfg, off, step, s, rp, rr) {
      RelatedAtTask(cfg, off, rp.state, rr.state, step, s.always, first, 0, |s.always|);
    } else {
      RunTasksFrame(Dry(cfg), rp.state, step, s.always, first, 0);
      RunTasksFrame(Wet(cfg), rr.state, step, s.always, first, 0);
      FramesKeepSim(off, Registers(s.always), rp.state, rr.state,
                    RunAlways(Dry(cfg), step, s, rp).state, RunAlways(Wet(cfg), step, s, rr).state);
      UnlikeAlwaysBlurs(cfg, off, step, s, rp, rr);
    }
  }

  lemma UnlikeAlwaysBlurs(cfg: Config, off: set<string>, step: nat, s: Step, rp: Ran, rr: Ran)
    requires Related(cfg, off, rp.state, rr.state) && !AlwaysAlike(cfg, off, step, s, rp, rr)
    ensures Blurred(RunAlways(Dry(cfg), step, s, rp).state, RunAlways(Wet(cfg), step, s, rr).state)
  {
    var first := FirstTask(ShapeOf(s), Always);
    RunAlwaysIs(Dry(cfg), step, s, rp);
    RunAlwaysIs(Wet(cfg), step, s, rr);
    RunTasksFrame(Dry(cfg), rp.state, step, s.always, first, 0);
    RunTasksFrame(Wet(cfg), rr.state, step, s.always, first, 0);
    if off == {} {
      assert TasksAvoid(s.always, off);
    }
  }

  // ---- Started steps ----

  ghost function StartedDoubt(cfg: Config, off: set<string>, p: State, r: State, step: nat, s: Step): set<string> {
    var bp, br := RunBody(Dry(cfg), p, step, s), RunBody(Wet(cfg), r, step, s);
    var rp, rr := RunRescue(Dry(cfg), step, s, bp), RunRescue(Wet(cfg), step, s, br);
    var afterRescue := RescueDoubt(cfg, BodyDoubt(cfg, off, p, r, step, s), step, s, bp, br);
    AlwaysDoubt(cfg, afterRescue, step, s, rp, rr) - ERRORS
  }

  lemma FrameUnreserved(names: set<string>, s: State, sNext: State)
    requires Frame(names, s, sNext) && NoItemNames(names) && names !! ERRORS && Unreserved(s)
    ensures Unreserved(sNext)
  {
    forall name | IsItemVar(name) || IsErrorVar(name) ensures name !in sNext.vars && name !in sNext.unknown {
      assert name !in names;
    }
  }

  /** What a step's sections leave unbound for the next. */
  lemma SectionsUnreserved(cfg: Config, st: State, step: nat, s: Step)
    requires Unreserved(st) && WellNamed(s)
    ensures Unreserved(RunBody(cfg, st, step, s).state) && Ended(RunBody(cfg, st, step, s))
    ensures NoItems(RunRescue(cfg, step, s, RunBody(cfg, st, step, s)).state)
  {
    var body := RunBody(cfg, st, step, s);
    SectionNames(s);
    BodyFrame(cfg, st, step, s);
    FrameUnreserved(Registers(s.tasks), st, body.state);
    RescueFrame(cfg, step, s, body);
    FrameNoItems(ERRORS + Registers(s.rescue), body.state, RunRescue(cfg, step, s, body).state);
  }

  lemma WithdrawKeeps(cfg: Config, off: set<string>, p: State, r: State)
    requires Related(cfg, off, p, r)
    ensures Related(cfg, off - ERRORS, Withdraw(p), Withdraw(r))
  {
    forall name | name !in off - ERRORS ensures SimAt(Withdraw(p), Withdraw(r), name) {
      if name !in ERRORS {
        assert SimAt(p, r, name);
      }
    }
  }

  lemma UpToRescue(cfg: Config, off: set<string>, p: State, r: State, step: nat, s: Step)
    requires Related(cfg, off, p, r) && Unreserved(p) && Unreserved(r) && WellNamed(s)
    ensures var bp, br := RunBody(Dry(cfg), p, step, s), RunBody(Wet(cfg), r, step, s);
            var rp, rr := RunRescue(Dry(cfg), step, s, bp), RunRescue(Wet(cfg), step, s, br);
            && Related(cfg, RescueDoubt(cfg, BodyDoubt(cfg, off, p, r, step, s), step, s, bp, br), rp.state, rr.state)
            && NoItems(rp.state) && NoItems(rr.state)
  {
    var bp, br := RunBody(Dry(cfg), p, step, s), RunBody(Wet(cfg), r, step, s);
    SectionsUnreserved(Dry(cfg), p, step, s);
    SectionsUnreserved(Wet(cfg), r, step, s);
    BodyKeeps(cfg, off, p, r, step, s);
    RescueKeeps(cfg, BodyDoubt(cfg, off, p, r, step, s), step, s, bp, br);
  }

  lemma StartedKeeps(cfg: Config, off: set<string>, p: State, r: State, step: nat, s: Step)
    requires Related(cfg, off, p, r) && Unreserved(p) && Unreserved(r) && WellNamed(s)
    ensures Related(cfg, StartedDoubt(cfg, off, p, r, step, s),
                    RunStarted(Dry(cfg), p, step, s).state, RunStarted(Wet(cfg), r, step, s).state)
  {
    var bp, br := RunBody(Dry(cfg), p, step, s), RunBody(Wet(cfg), r, step, s);
    var rp, rr := RunRescue(Dry(cfg), step, s, bp), RunRescue(Wet(cfg), step, s, br);
    var afterRescue := RescueDoubt(cfg, BodyDoubt(cfg, off, p, r, step, s), step, s, bp, br);
    UpToRescue(cfg, off, p, r, step, s);
    AlwaysKeeps(cfg, afterRescue, step, s, rp, rr);
    WithdrawKeeps(cfg, AlwaysDoubt(cfg, afterRescue, step, s, rp, rr),
                  RunAlways(Dry(cfg), step, s, rp).state, RunAlways(Wet(cfg), step, s, rr).state);
  }

  // ---- Steps ----

  /** The names in doubt after a step, those in `off` being so before it. */
  ghost function StepDoubt(cfg: Config, off: set<string>, p: State, r: State, step: nat, s: Step): set<string> {
    var gate := StepGate(Dry(cfg), p, s);
    if gate == Ok(Skip(false)) then off - StepRegisters(s)
    else if !s.excluded && !Avoids(s.when, off) then off + StepRegisters(s)
    else if gate == Ok(Skip(true)) then off - StepRegisters(s)
    else StartedDoubt(cfg, off, p, r, step, s)
  }

  lemma SkipStepFrame(st: State, s: Step, decided: bool)
    ensures Frame(StepRegisters(s), st, SkipStep(st, s, decided))
    ensures decided && st.unknown == {} ==> SkipStep(st, s, decided).unknown == {}
  {
    SkipAllFrame(st.(skipped := st.skipped + |s.tasks| + |s.always|, undecided := st.undecided || !decided),
                 s.tasks + s.rescue + s.always, decided);
    AllRegisters(s);
  }

  lemma AllRegisters(s: Step)
    ensures Registers(s.tasks + s.rescue + s.always) == StepRegisters(s)
  {
    RegistersConcat(s.tasks, s.rescue);
    RegistersConcat(s.tasks + s.rescue, s.always);
  }

  lemma StepFrame(cfg: Config, st: State, step: nat, s: Step)
    ensures Frame(ERRORS + StepRegisters(s), st, RunStep(cfg, st, step, s).state)
    ensures Recorded(cfg, st, RunStep(cfg, st, step, s))
  {
    match StepGate(cfg, st, s)
    case Err(_) =>
    case Ok(Run) => StartedFrame(cfg, st, step, s);
    case Ok(Skip(decided)) =>
      if st.unknown == {} && !s.excluded {
        KnownGateDecides(s.when, ScopeOf(cfg, st));
      }
      SkipStepFrame(st, s, decided);
  }

  lemma StepUnreserved(cfg: Config, st: State, step: nat, s: Step)
    requires WellNamed(s) && Unreserved(st) && RunStep(cfg, st, step, s).failure.None?
    ensures Unreserved(RunStep(cfg, st, step, s).state)
  {
    SectionNames(s);
    match StepGate(cfg, st, s)
    case Ok(Run) =>
      StartedFrame(cfg, st, step, s);
      var sNext := RunStarted(cfg, st, step, s).state;
      forall name | IsItemVar(name) || IsErrorVar(name) ensures name !in sNext.vars && name !in sNext.unknown {
        assert name !in ERRORS ==> name !in ERRORS + StepRegisters(s);
      }
    case Ok(Skip(decided)) =>
      SkipStepFrame(st, s, decided);
      FrameUnreserved(StepRegisters(s), st, SkipStep(st, s, decided));
  }

  /** A step the preview could not decide: whatever the run did in it, the preview holds every
      variable it may have set unknown. */
  lemma UndecidedStep(off: set<string>, p: State, r: State, s: Step, rNext: State)
    requires Sim(off, p, r) && Unreserved(p) && Unreserved(r)
    requires Frame(ERRORS + StepRegisters(s), r, rNext) && Unreserved(rNext) && rNext.unknown == {}
    ensures Sim(off - StepRegisters(s), SkipStep(p, s, false), rNext)
  {
    var ps := p.(skipped := p.skipped + |s.tasks| + |s.always|, undecided := p.undecided || !false);
    AllRegisters(s);
    SimLooksAtVars(off, p, r, ps, r);
    ErrorsAreOutside(StepRegisters(s), r, rNext);
    SkipsClaimNothing(off, ps, r, s.tasks + s.rescue + s.always, rNext);
  }

  /** Failure variables unbound before and after are not changed. */
  lemma ErrorsAreOutside(names: set<string>, s: State, sNext: State)
    requires Frame(ERRORS + names, s, sNext) && Unreserved(s) && Unreserved(sNext)
    ensures Frame(names, s, sNext)
  {
    forall name | name !in names
      ensures (name in sNext.unknown <==> name in s.unknown) && (name in sNext.vars ==> name in s.vars)
      ensures !IsItemVar(name) && name in s.vars ==> name in sNext.vars && sNext.vars[name] == s.vars[name]
    {
      if name in ERRORS {
        assert IsErrorVar(name);
      } else {
        assert name !in ERRORS + names;
      }
    }
  }

  lemma {:induction false} SkipAllMatch(off: set<string>, p: State, r: State, tasks: seq<Task>)
    requires Sim(off, p, r)
    ensures Sim(off - Registers(tasks), SkipAll(p, tasks, true), SkipAll(r, tasks, true))
  {
    if tasks != [] {
      var before, last := tasks[..|tasks| - 1], tasks[|tasks| - 1].register;
      SkipAllMatch(off, p, r, before);
      SkipsMatch(off - Registers(before), SkipAll(p, before, true), SkipAll(r, before, true), last, true);
      assert off - Registers(before) - Names(last) == off - Registers(tasks);
    }
  }

  lemma DecidedSkipsMatch(cfg: Config, off: set<string>, p: State, r: State, s: Step)
    requires Related(cfg, off, p, r)
    ensures Related(cfg, off - StepRegisters(s), SkipStep(p, s, true), SkipStep(r, s, true))
  {
    var n := |s.tasks| + |s.always|;
    var ps := p.(skipped := p.skipped + |s.tasks| + |s.always|, undecided := p.undecided || !true);
    var rs := r.(skipped := r.skipped + |s.tasks| + |s.always|, undecided := r.undecided || !true);
    var all := s.tasks + s.rescue + s.always;
    SimLooksAtVars(off, p, r, ps, rs);
    AllRegisters(s);
    SkipAllMatch(off, ps, rs, all);
    SkipAllFrame(ps, all, true);
    SkipAllFrame(rs, all, true);
  }

  /** A step whose gate looks at a name in doubt. */
  lemma DoubtfulStep(cfg: Config, off: set<string>, p: State, r: State, step: nat, s: Step)
    requires Related(cfg, off, p, r) && Unreserved(p) && Unreserved(r) && WellNamed(s) && off != {}
    requires RunStep(Dry(cfg), p, step, s).failure.None? && RunStep(Wet(cfg), r, step, s).failure.None?
    ensures Related(cfg, off + StepRegisters(s), RunStep(Dry(cfg), p, step, s).state, RunStep(Wet(cfg), r, step, s).state)
  {
    StepFrame(Dry(cfg), p, step, s);
    StepFrame(Wet(cfg), r, step, s);
    StepUnreserved(Dry(cfg), p, step, s);
    StepUnreserved(Wet(cfg), r, step, s);
    var pNext, rNext := RunStep(Dry(cfg), p, step, s).state, RunStep(Wet(cfg), r, step, s).state;
    ErrorsAreOutside(StepRegisters(s), p, pNext);
    ErrorsAreOutside(StepRegisters(s), r, rNext);
    FramesKeepSim(off, StepRegisters(s), p, r, pNext, rNext);
  }

  lemma UndecidedStepKeeps(cfg: Config, off: set<string>, p: State, r: State, step: nat, s: Step)
    requires Related(cfg, off, p, r) && Unreserved(p) && Unreserved(r) && WellNamed(s)
    requires RunStep(Wet(cfg), r, step, s).failure.None?
    ensures Related(cfg, off - StepRegisters(s), SkipStep(p, s, false), RunStep(Wet(cfg), r, step, s).state)
  {
    StepFrame(Wet(cfg), r, step, s);
    StepUnreserved(Wet(cfg), r, step, s);
    UndecidedStep(off, p, r, s, RunStep(Wet(cfg), r, step, s).state);
    SkipStepFrame(p, s, false);
    SkipAllFrame(p.(skipped := p.skipped + |s.tasks| + |s.always|, undecided := true), s.tasks + s.rescue + s.always, false);
  }

  /** Where a step that does not fail went at its gate. */
  lemma StepGoes(cfg: Config, st: State, step: nat, s: Step) returns (gate: Gate)
    requires RunStep(cfg, st, step, s).failure.None?
    ensures StepGate(cfg, st, s) == Ok(gate)
    ensures RunStep(cfg, st, step, s)
            == if gate.Run? then RunStarted(cfg, st, step, s) else Ran(SkipStep(st, s, gate.decided), None)
  {
    gate := StepGate(cfg, st, s).value;
  }

  lemma StepGatesAgree(cfg: Config, off: set<string>, p: State, r: State, s: Step)
    requires Sim(off, p, r) && (s.excluded || Avoids(s.when, off))
    requires StepGate(Dry(cfg), p, s) != Ok(Skip(false)) && StepGate(Wet(cfg), r, s).Ok?
    ensures StepGate(Wet(cfg), r, s) == StepGate(Dry(cfg), p, s)
  {
    if !s.excluded {
      GatesAgree(cfg, off, p, r, s.when);
    }
  }

  /** One step both get through, failures that `rescue` made good included: what it puts in doubt
      is what `StepDoubt` says. */
  lemma StepsMatchOne(cfg: Config, off: set<string>, p: State, r: State, step: nat, s: Step)
    requires Related(cfg, off, p, r) && Unreserved(p) && Unreserved(r) && WellNamed(s)
    requires RunStep(Dry(cfg), p, step, s).failure.None? && RunStep(Wet(cfg), r, step, s).failure.None?
    ensures Related(cfg, StepDoubt(cfg, off, p, r, step, s),
                    RunStep(Dry(cfg), p, step, s).state, RunStep(Wet(cfg), r, step, s).state)
  {
    var gp := StepGoes(Dry(cfg), p, step, s);
    if gp == Skip(false) {
      UndecidedStepKeeps(cfg, off, p, r, step, s);
    } else if !s.excluded && !Avoids(s.when, off) {
      DoubtfulStep(cfg, off, p, r, step, s);
    } else {
      var gr := StepGoes(Wet(cfg), r, step, s);
      StepGatesAgree(cfg, off, p, r, s);
      if gp.Run? {
        StartedKeeps(cfg, off, p, r, step, s);
      } else {
        DecidedSkipsMatch(cfg, off, p, r, s);
      }
    }
  }

  // ---- Whole plans ----

  function Start(vars: Vars): State {
    State(vars, {}, 0, 0, false, false, false)
  }

  ghost predicate PlanOf(vars: Vars, steps: seq<Step>) {
    Unreserved(Start(vars)) && forall i :: 0 <= i < |steps| ==> WellNamed(steps[i])
  }

  /** Preview and run both get through the first `n` steps. */
  predicate BothReach(cfg: Config, vars: Vars, steps: seq<Step>, n: nat) {
    RunSteps(Dry(cfg), Start(vars), steps, n).failure.None? && RunSteps(Wet(cfg), Start(vars), steps, n).failure.None?
  }

  function Previewed(cfg: Config, vars: Vars, steps: seq<Step>, n: nat): State {
    RunSteps(Dry(cfg), Start(vars), steps, n).state
  }

  function Real(cfg: Config, vars: Vars, steps: seq<Step>, n: nat): State {
    RunSteps(Wet(cfg), Start(vars), steps, n).state
  }

  type Doubting = (set<string>, State, State, nat) -> set<string>

  /** What is in doubt after `n` parts of two chains, by what each part puts in doubt. */
  ghost function DoubtAlong(doubt: Doubting, runP: (State, nat) -> Ran, runR: (State, nat) -> Ran, st: State, n: nat): set<string> {
    if n == 0 then {}
    else
      doubt(DoubtAlong(doubt, runP, runR, st, n - 1), Chain(runP, st, n - 1).state, Chain(runR, st, n - 1).state, n - 1)
  }

  ghost function StepDoubts(cfg: Config, steps: seq<Step>): Doubting {
    (off: set<string>, p: State, r: State, i: nat) => if i < |steps| then StepDoubt(cfg, off, p, r, i, steps[i]) else off
  }

  /** The names in doubt after `n` steps. */
  ghost function InDoubt(cfg: Config, vars: Vars, steps: seq<Step>, n: nat): set<string> {
    DoubtAlong(StepDoubts(cfg, steps), StepRunner(Dry(cfg), steps), StepRunner(Wet(cfg), steps), Start(vars), n)
  }

  /** What holds between two steps. */
  ghost predicate Between(cfg: Config, off: set<string>, p: State, r: State) {
    Related(cfg, off, p, r) && Unreserved(p) && Unreserved(r)
  }

  /** Each part of two chains keeps it, unless it fails. */
  ghost predicate PartsKeep(cfg: Config, doubt: Doubting, runP: (State, nat) -> Ran, runR: (State, nat) -> Ran, n: nat) {
    forall off, p, r, i: nat {:trigger doubt(off, p, r, i)} ::
      i < n && Between(cfg, off, p, r) && runP(p, i).failure.None? && runR(r, i).failure.None? ==>
        Between(cfg, doubt(off, p, r, i), runP(p, i).state, runR(r, i).state)
  }

  lemma {:induction false} ChainsKeep(
    cfg: Config, doubt: Doubting, runP: (State, nat) -> Ran, runR: (State, nat) -> Ran, st: State, n: nat)
    requires Between(cfg, {}, st, st) && PartsKeep(cfg, doubt, runP, runR, n)
    requires Chain(runP, st, n).failure.None? && Chain(runR, st, n).failure.None?
    ensures Between(cfg, DoubtAlong(doubt, runP, runR, st, n), Chain(runP, st, n).state, Chain(runR, st, n).state)
  {
    if n > 0 {
      ChainsKeep(cfg, doubt, runP, runR, st, n - 1);
    }
  }

  lemma StepKeeps(cfg: Config, off: set<string>, p: State, r: State, steps: seq<Step>, i: nat)
    requires i < |steps| && WellNamed(steps[i]) && Between(cfg, off, p, r)
    requires StepRunner(Dry(cfg), steps)(p, i).failure.None? && StepRunner(Wet(cfg), steps)(r, i).failure.None?
    ensures Between(cfg, StepDoubts(cfg, steps)(off, p, r, i),
                    StepRunner(Dry(cfg), steps)(p, i).state, StepRunner(Wet(cfg), steps)(r, i).state)
  {
    StepsMatchOne(cfg, off, p, r, i, steps[i]);
    StepUnreserved(Dry(cfg), p, i, steps[i]);
    StepUnreserved(Wet(cfg), r, i, steps[i]);
  }

  lemma StepsKeep(cfg: Config, steps: seq<Step>, n: nat)
    requires n <= |steps| && forall i :: 0 <= i < |steps| ==> WellNamed(steps[i])
    ensures PartsKeep(cfg, StepDoubts(cfg, steps), StepRunner(Dry(cfg), steps), StepRunner(Wet(cfg), steps), n)
  {
    var doubt, runP, runR := StepDoubts(cfg, steps), StepRunner(Dry(cfg), steps), StepRunner(Wet(cfg), steps);
    forall off, p, r, i: nat |
      i < n && Between(cfg, off, p, r) && runP(p, i).failure.None? && runR(r, i).failure.None?
      ensures Between(cfg, doubt(off, p, r, i), runP(p, i).state, runR(r, i).state)
    {
      StepKeeps(cfg, off, p, r, steps, i);
    }
  }

  lemma StartsRelated(cfg: Config, vars: Vars)
    ensures Related(cfg, {}, Start(vars), Start(vars))
  {
    forall name ensures SimAt(Start(vars), Start(vars), name) {
    }
  }

  lemma BetweenSteps(cfg: Config, vars: Vars, steps: seq<Step>, n: nat)
    requires n <= |steps| && PlanOf(vars, steps) && BothReach(cfg, vars, steps, n)
    ensures Between(cfg, InDoubt(cfg, vars, steps, n), Previewed(cfg, vars, steps, n), Real(cfg, vars, steps, n))
  {
    StartsRelated(cfg, vars);
    StepsKeep(cfg, steps, n);
    ChainsKeep(cfg, StepDoubts(cfg, steps), StepRunner(Dry(cfg), steps), StepRunner(Wet(cfg), steps), Start(vars), n);
  }

  // ---- What may be in doubt, told before the run ----

  /** The names a started step may put in doubt, from what the preview did in it. */
  ghost function MayStartedDoubt(cfg: Config, off: set<string>, p: State, step: nat, s: Step): set<string> {
    var failed := RunBody(Dry(cfg), p, step, s).failure.Some?;
    var body := if s.rescue == [] && BodySteady(cfg, off, p, s) then off else off + Registers(s.tasks);
    var afterRescue := if failed then body + ERRORS + Registers(s.rescue) else body - Registers(s.rescue);
    (if TasksAvoid(s.always, afterRescue) then afterRescue else afterRescue + Registers(s.always)) - ERRORS
  }

  ghost function MayStepDoubt(cfg: Config, off: set<string>, p: State, step: nat, s: Step): set<string> {
    var gate := StepGate(Dry(cfg), p, s);
    if gate == Ok(Skip(false)) then off - StepRegisters(s)
    else if !s.excluded && !Avoids(s.when, off) then off + StepRegisters(s)
    else if gate == Ok(Skip(true)) then off - StepRegisters(s)
    else MayStartedDoubt(cfg, off, p, step, s)
  }

  type Foretelling = (set<string>, State, nat) -> set<string>

  ghost function MayAlong(may: Foretelling, run: (State, nat) -> Ran, st: State, n: nat): set<string> {
    if n == 0 then {} else may(MayAlong(may, run, st, n - 1), Chain(run, st, n - 1).state, n - 1)
  }

  ghost function StepForetelling(cfg: Config, steps: seq<Step>): Foretelling {
    (off: set<string>, p: State, i: nat) => if i < |steps| then MayStepDoubt(cfg, off, p, i, steps[i]) else off
  }

  /** The names that may be in doubt after `n` steps: found from the plan and the preview alone. */
  ghost function MayDoubt(cfg: Config, vars: Vars, steps: seq<Step>, n: nat): set<string> {
    MayAlong(StepForetelling(cfg, steps), StepRunner(Dry(cfg), steps), Start(vars), n)
  }

  /** A step that neither rescues nor looks at anything in `off`, as the plan has it. */
  ghost predicate Plain(collections: map<string, Rows>, off: set<string>, s: Step) {
    && s.rescue == [] && (s.excluded || Avoids(s.when, off)) && TasksAvoid(s.tasks, off) && TasksAvoid(s.always, off)
    && match s.loop
       case Some(LoopVariable(name)) => name in collections || name !in off
       case _ => true
  }

  ghost function PlanNext(collections: map<string, Rows>, off: set<string>, s: Step): set<string> {
    if Plain(collections, off, s) then off else off + StepRegisters(s)
  }

  type Telling = (set<string>, nat) -> set<string>

  ghost function PlanAlong(next: Telling, n: nat): set<string> {
    if n == 0 then {} else next(PlanAlong(next, n - 1), n - 1)
  }

  ghost function PlanTelling(collections: map<string, Rows>, steps: seq<Step>): Telling {
    (off: set<string>, i: nat) => if i < |steps| then PlanNext(collections, off, steps[i]) else off
  }

  /** The same from the plan alone: only what a step that rescues registers, and what depends on
      that. */
  ghost function PlanDoubt(collections: map<string, Rows>, steps: seq<Step>, n: nat): set<string> {
    PlanAlong(PlanTelling(collections, steps), n)
  }

  lemma AvoidsLess(s: Step, less: set<string>, off: set<string>)
    requires less <= off
    ensures Avoids(s.when, off) ==> Avoids(s.when, less)
    ensures TasksAvoid(s.tasks, off) ==> TasksAvoid(s.tasks, less)
    ensures TasksAvoid(s.always, off) ==> TasksAvoid(s.always, less)
  {
    if TasksAvoid(s.tasks, off) {
      forall i | 0 <= i < |s.tasks| ensures Avoids(s.tasks[i].when, less) {
        assert Avoids(s.tasks[i].when, off);
      }
    }
    if TasksAvoid(s.always, off) {
      forall i | 0 <= i < |s.always| ensures Avoids(s.always[i].when, less) {
        assert Avoids(s.always[i].when, off);
      }
    }
  }

  /** Only a step that rescues goes on after a failure of its own tasks; nor does one that fails
      in `always`. */
  lemma GoesOn(cfg: Config, st: State, step: nat, s: Step)
    requires RunStarted(cfg, st, step, s).failure.None?
    ensures RunBody(cfg, st, step, s).failure.Some? ==> s.rescue != []
    ensures RunTasks(cfg, RunRescue(cfg, step, s, RunBody(cfg, st, step, s)).state, step, s.always,
                     FirstTask(ShapeOf(s), Always), 0).failure.None?
  {
  }

  lemma StartedMayDoubt(cfg: Config, less: set<string>, off: set<string>, p: State, r: State, step: nat, s: Step)
    requires less <= off
    requires RunStarted(Dry(cfg), p, step, s).failure.None? && RunStarted(Wet(cfg), r, step, s).failure.None?
    ensures StartedDoubt(cfg, less, p, r, step, s) <= MayStartedDoubt(cfg, off, p, step, s)
  {
    var bp, br := RunBody(Dry(cfg), p, step, s), RunBody(Wet(cfg), r, step, s);
    GoesOn(Dry(cfg), p, step, s);
    GoesOn(Wet(cfg), r, step, s);
    AvoidsLess(s, less, off);
    var body := if s.rescue == [] && BodySteady(cfg, off, p, s) then off else off + Registers(s.tasks);
    assert BodyDoubt(cfg, less, p, r, step, s) <= body;
    var afterRescue := if bp.failure.Some? then body + ERRORS + Registers(s.rescue) else body - Registers(s.rescue);
    var rescued := RescueDoubt(cfg, BodyDoubt(cfg, less, p, r, step, s), step, s, bp, br);
    assert rescued <= afterRescue;
    AvoidsLess(s, rescued, afterRescue);
  }

  lemma StepMayDoubt(cfg: Config, less: set<string>, off: set<string>, p: State, r: State, step: nat, s: Step)
    requires less <= off && Sim(less, p, r)
    requires RunStep(Dry(cfg), p, step, s).failure.None? && RunStep(Wet(cfg), r, step, s).failure.None?
    ensures StepDoubt(cfg, less, p, r, step, s) <= MayStepDoubt(cfg, off, p, step, s)
  {
    AvoidsLess(s, less, off);
    var gp := StepGoes(Dry(cfg), p, step, s);
    if gp.Run? && (s.excluded || Avoids(s.when, off)) {
      var gr := StepGoes(Wet(cfg), r, step, s);
      StepGatesAgree(cfg, less, p, r, s);
      StartedMayDoubt(cfg, less, off, p, r, step, s);
    }
  }

  /** What each part of two chains puts in doubt is foretold. */
  ghost predicate PartsForetold(
    cfg: Config, doubt: Doubting, may: Foretelling, runP: (State, nat) -> Ran, runR: (State, nat) -> Ran, n: nat)
  {
    forall less, off, p, r, i: nat {:trigger doubt(less, p, r, i), may(off, p, i)} ::
      i < n && less <= off && Between(cfg, less, p, r) && runP(p, i).failure.None? && runR(r, i).failure.None? ==>
        doubt(less, p, r, i) <= may(off, p, i)
  }

  lemma {:induction false} ChainsForetold(
    cfg: Config, doubt: Doubting, may: Foretelling, runP: (State, nat) -> Ran, runR: (State, nat) -> Ran, st: State, n: nat)
    requires Between(cfg, {}, st, st) && PartsKeep(cfg, doubt, runP, runR, n) && PartsForetold(cfg, doubt, may, runP, runR, n)
    requires Chain(runP, st, n).failure.None? && Chain(runR, st, n).failure.None?
    ensures DoubtAlong(doubt, runP, runR, st, n) <= MayAlong(may, runP, st, n)
  {
    if n > 0 {
      ChainsKeep(cfg, doubt, runP, runR, st, n - 1);
      ChainsForetold(cfg, doubt, may, runP, runR, st, n - 1);
    }
  }

  lemma StepForetold(cfg: Config, less: set<string>, off: set<string>, p: State, r: State, steps: seq<Step>, i: nat)
    requires i < |steps| && less <= off && Sim(less, p, r)
    requires StepRunner(Dry(cfg), steps)(p, i).failure.None? && StepRunner(Wet(cfg), steps)(r, i).failure.None?
    ensures StepDoubts(cfg, steps)(less, p, r, i) <= StepForetelling(cfg, steps)(off, p, i)
  {
    StepMayDoubt(cfg, less, off, p, r, i, steps[i]);
  }

  /** The doubt there is never exceeds what a reader of the preview can tell beforehand. */
  lemma DoubtIsForetold(cfg: Config, vars: Vars, steps: seq<Step>, n: nat)
    requires n <= |steps| && PlanOf(vars, steps) && BothReach(cfg, vars, steps, n)
    ensures InDoubt(cfg, vars, steps, n) <= MayDoubt(cfg, vars, steps, n)
  {
    var doubt, may, runP, runR :=
      StepDoubts(cfg, steps), StepForetelling(cfg, steps), StepRunner(Dry(cfg), steps), StepRunner(Wet(cfg), steps);
    forall less, off, p, r, i: nat |
      i < n && less <= off && Between(cfg, less, p, r) && runP(p, i).failure.None? && runR(r, i).failure.None?
      ensures doubt(less, p, r, i) <= may(off, p, i)
    {
      StepForetold(cfg, less, off, p, r, steps, i);
    }
    StartsRelated(cfg, vars);
    StepsKeep(cfg, steps, n);
    ChainsForetold(cfg, doubt, may, runP, runR, Start(vars), n);
  }

  lemma PlainStepMayDoubt(cfg: Config, less: set<string>, off: set<string>, p: State, step: nat, s: Step)
    requires less <= off && RunStep(Dry(cfg), p, step, s).failure.None?
    requires !RunStep(Dry(cfg), p, step, s).state.loopedUnknown
    ensures MayStepDoubt(cfg, less, p, step, s) <= PlanNext(cfg.collections, off, s)
  {
    AvoidsLess(s, less, off);
    var gate := StepGoes(Dry(cfg), p, step, s);
    if gate.Run? && Plain(cfg.collections, off, s) {
      GoesOn(Dry(cfg), p, step, s);
      if s.loop.Some? && LoopsOverUnknown(cfg, p, s.loop.value) {
        UnknownLoopStays(Dry(cfg), p, step, s);
      }
      assert BodySteady(cfg, less, p, s);
    }
  }

  lemma UnknownLoopStays(cfg: Config, st: State, step: nat, s: Step)
    requires s.loop.Some? && LoopsOverUnknown(cfg, st, s.loop.value) && RunBody(cfg, st, step, s).failure.None?
    ensures RunStarted(cfg, st, step, s).state.loopedUnknown
  {
    var st1 := st.(loopedUnknown := true);
    ItemsFrame(cfg, st1, step, s.tasks, ResolveItems(s.loop.value, st.vars, cfg.collections).value);
    var body := RunBody(cfg, st, step, s);
    RescueFrame(cfg, step, s, body);
    AlwaysFrame(cfg, step, s, RunRescue(cfg, step, s, body));
  }

  lemma PlanTellsNext(cfg: Config, less: set<string>, off: set<string>, p: State, steps: seq<Step>, i: nat)
    requires i < |steps| && less <= off && StepRunner(Dry(cfg), steps)(p, i).failure.None?
    requires !StepRunner(Dry(cfg), steps)(p, i).state.loopedUnknown
    ensures StepForetelling(cfg, steps)(less, p, i) <= PlanTelling(cfg.collections, steps)(off, i)
  {
    PlainStepMayDoubt(cfg, less, off, p, i, steps[i]);
  }

  ghost predicate PartsTold(may: Foretelling, next: Telling, run: (State, nat) -> Ran, n: nat) {
    && (forall p, i: nat {:trigger run(p, i)} :: i < n && !run(p, i).state.loopedUnknown ==> !p.loopedUnknown)
    && (forall less, off, p, i: nat {:trigger may(less, p, i), next(off, i)} ::
          i < n && less <= off && run(p, i).failure.None? && !run(p, i).state.loopedUnknown ==>
            may(less, p, i) <= next(off, i))
  }

  lemma {:induction false} ChainTold(may: Foretelling, next: Telling, run: (State, nat) -> Ran, st: State, n: nat)
    requires PartsTold(may, next, run, n) && Chain(run, st, n).failure.None? && !Chain(run, st, n).state.loopedUnknown
    ensures MayAlong(may, run, st, n) <= PlanAlong(next, n)
  {
    if n > 0 {
      ChainTold(may, next, run, st, n - 1);
    }
  }

  /** Where the preview looped over nothing unknown, the plan alone tells. */
  lemma PlanTells(cfg: Config, vars: Vars, steps: seq<Step>, n: nat)
    requires n <= |steps| && RunSteps(Dry(cfg), Start(vars), steps, n).failure.None?
    requires !Previewed(cfg, vars, steps, n).loopedUnknown
    ensures MayDoubt(cfg, vars, steps, n) <= PlanDoubt(cfg.collections, steps, n)
  {
    var may, next, run := StepForetelling(cfg, steps), PlanTelling(cfg.collections, steps), StepRunner(Dry(cfg), steps);
    forall less, off, p, i: nat |
      i < n && less <= off && run(p, i).failure.None? && !run(p, i).state.loopedUnknown
      ensures may(less, p, i) <= next(off, i)
    {
      PlanTellsNext(cfg, less, off, p, steps, i);
    }
    forall p, i: nat | i < n && !run(p, i).state.loopedUnknown ensures !p.loopedUnknown {
      StepFrame(Dry(cfg), p, i, steps[i]);
    }
    ChainTold(may, next, run, Start(vars), n);
  }

  /** Without `rescue` there is nothing to doubt. */
  lemma {:induction false} NoRescueNoDoubt(collections: map<string, Rows>, steps: seq<Step>, n: nat)
    requires n <= |steps| && forall i :: 0 <= i < n ==> steps[i].rescue == []
    ensures PlanDoubt(collections, steps, n) == {}
  {
    if n > 0 {
      NoRescueNoDoubt(collections, steps, n - 1);
    }
  }

  // ---- What a preview promises ----

  /** The simulation over a whole plan. After any number of steps both runs get through, failures
      that `rescue` made good included, the relation holds for all names but those in doubt. These
      are among those the preview tells beforehand and, when it looped over nothing unknown, those
      the plan tells; and there are none while nothing failed and nothing unknown was looped over. */
  lemma PreviewSimulates(cfg: Config, vars: Vars, steps: seq<Step>, n: nat)
    requires n <= |steps| && PlanOf(vars, steps) && BothReach(cfg, vars, steps, n)
    ensures var p, r, off := Previewed(cfg, vars, steps, n), Real(cfg, vars, steps, n), InDoubt(cfg, vars, steps, n);
            && Related(cfg, off, p, r)
            && off <= MayDoubt(cfg, vars, steps, n)
            && (!p.loopedUnknown ==> off <= PlanDoubt(cfg.collections, steps, n))
            && (!p.failed && !r.failed && !p.loopedUnknown ==> off == {})
  {
    BetweenSteps(cfg, vars, steps, n);
    DoubtIsForetold(cfg, vars, steps, n);
    if !Previewed(cfg, vars, steps, n).loopedUnknown {
      PlanTells(cfg, vars, steps, n);
    }
  }

  /** What a reader of a preview can rely on, of a name not in doubt by the preview or, when it
      looped over nothing unknown, by the plan. What the preview does not hold unknown is so in the
      run; an unknown variable it still shows is defined there. And, if nothing failed or was left
      undecided and pending tasks do change something, the counts agree. */
  lemma PreviewPredicts(cfg: Config, vars: Vars, steps: seq<Step>, n: nat, name: string)
    requires n <= |steps| && PlanOf(vars, steps) && BothReach(cfg, vars, steps, n)
    ensures var p, r := Previewed(cfg, vars, steps, n), Real(cfg, vars, steps, n);
            && (name !in MayDoubt(cfg, vars, steps, n) || (!p.loopedUnknown && name !in PlanDoubt(cfg.collections, steps, n)) ==>
                  && (name !in p.unknown && name in p.vars ==> name in r.vars && r.vars[name] == p.vars[name])
                  && (name !in p.unknown && name !in p.vars ==> name !in r.vars)
                  && (name in p.unknown && name in p.vars ==> name in r.vars))
            && (Honest(cfg) && !p.failed && !r.failed && !p.loopedUnknown && !p.undecided ==>
                  p.changed == r.changed && p.skipped == r.skipped)
  {
    PreviewSimulates(cfg, vars, steps, n);
    if name !in InDoubt(cfg, vars, steps, n) {
      assert SimAt(Previewed(cfg, vars, steps, n), Real(cfg, vars, steps, n), name);
    }
  }

  /** Step by step: nothing is in doubt at the start, and a step adds at most what it registers. */
  lemma DoubtStepByStep(cfg: Config, vars: Vars, steps: seq<Step>, n: nat)
    requires n < |steps|
    ensures InDoubt(cfg, vars, steps, 0) == {}
    ensures InDoubt(cfg, vars, steps, n + 1)
            == StepDoubt(cfg, InDoubt(cfg, vars, steps, n), Previewed(cfg, vars, steps, n), Real(cfg, vars, steps, n), n, steps[n])
    ensures InDoubt(cfg, vars, steps, n + 1) <= InDoubt(cfg, vars, steps, n) + StepRegisters(steps[n])
  {
  }

  /** A failure in the run alone, which `rescue` makes good, puts in doubt what the step's own
      tasks and `always` register, and of what `rescue` registers only what `always` does too;
      where `always` looks at nothing in doubt, nothing it registers. */
  lemma RescuedFailureDoubt(cfg: Config, off: set<string>, p: State, r: State, step: nat, s: Step)
    requires RunBody(Dry(cfg), p, step, s).failure.None?
    ensures StartedDoubt(cfg, off, p, r, step, s) <= off + Registers(s.tasks) + Registers(s.always)
    ensures StartedDoubt(cfg, off, p, r, step, s) * Registers(s.rescue) <= Registers(s.always)
    ensures TasksAvoid(s.always, off + Registers(s.tasks)) && RunStarted(Dry(cfg), p, step, s).failure.None?
            && RunStarted(Wet(cfg), r, step, s).failure.None? ==>
              StartedDoubt(cfg, off, p, r, step, s) <= off + Registers(s.tasks) - Registers(s.rescue)
  {
  }

  const CUT_AT_FIRST := Config(
    false, map[], (key: TaskKey) => if key.task == 0 then Pending(Some(Applied("", true, true))) else Satisfied,
    (step: nat) => true, (why: FailureKind) => ("", ""))

  function Registering(name: string): Task {
    Task(RegisteredModule, [], Some(name), None, false)
  }

  const RESCUED := Step(false, None, None, None, [Registering("a"), Registering("b")], [Registering("c")], [])

  /** The doubt is real. The first task's output is cut, which fails it in the run only, and
      `rescue` makes that good: both get through the step, the preview shows what the second task
      registers as known, and in the run it is not defined. A later `defined` is decided wrongly. */
  lemma RescuedFailureMisleads()
    ensures var p, r := RunStep(Dry(CUT_AT_FIRST), Start(map[]), 0, RESCUED), RunStep(Wet(CUT_AT_FIRST), Start(map[]), 0, RESCUED);
            && p.failure.None? && r.failure.None? && !p.state.failed && r.state.failed
            && !SimAt(p.state, r.state, "b")
            && var when := Some([[Term(false, Defined("b"))]]);
               && GateOf(when, ScopeOf(Dry(CUT_AT_FIRST), p.state)) == Ok(Run)
               && GateOf(when, ScopeOf(Wet(CUT_AT_FIRST), r.state)) == Ok(Skip(true))
  {
    CutPreview();
    CutRun();
    var p, r := RunStep(Dry(CUT_AT_FIRST), Start(map[]), 0, RESCUED).state, RunStep(Wet(CUT_AT_FIRST), Start(map[]), 0, RESCUED).state;
    var term := Term(false, Defined("b"));
    assert [term][1..] == [] && [[term]][1..] == [];
    assert EvalTerm(term, ScopeOf(Dry(CUT_AT_FIRST), p)) == Ok(True);
    assert EvalTerm(term, ScopeOf(Wet(CUT_AT_FIRST), r)) == Ok(False);
  }

  lemma CutPreview()
    ensures var p := RunStep(Dry(CUT_AT_FIRST), Start(map[]), 0, RESCUED);
            p.failure.None? && !p.state.failed && "b" in p.state.vars && "b" !in p.state.unknown
  {
    var cfg, st, s := Dry(CUT_AT_FIRST), Start(map[]), RESCUED;
    var run := TaskRunner(cfg, 0, s.tasks, 0, 0);
    var first := run(st, 0);
    assert first == Ran(CountChange(Register(st, "a", "", false), true), None);
    var second := run(first.state, 1);
    assert second == Ran(Register(first.state, "b", "", true), None);
    assert Chain(run, st, 1) == first && Chain(run, st, 2) == second;
    var c := Registering("c");
    assert [c][..0] == [];
    assert SkipAll(AfterBody(cfg, second), [c], false) == SkipRegister(AfterBody(cfg, second), Some("c"), false);
  }

  lemma CutRun()
    ensures var r := RunStep(Wet(CUT_AT_FIRST), Start(map[]), 0, RESCUED);
            r.failure.None? && r.state.failed && "b" !in r.state.vars && "b" !in r.state.unknown
  {
    var cfg, st, s := Wet(CUT_AT_FIRST), Start(map[]), RESCUED;
    var run := TaskRunner(cfg, 0, s.tasks, 0, 0);
    var first := run(st, 0);
    assert first == Fail(CountChange(st, true), OutputCut);
    assert Chain(run, st, 1) == first && Chain(run, st, 2) == first;
    var exposed := AfterBody(cfg, first);
    var rescue := TaskRunner(cfg, 0, s.rescue, 2, 0);
    assert rescue(exposed, 0) == Ran(Register(exposed, "c", "", true), None);
    assert Chain(rescue, exposed, 1) == rescue(exposed, 0);
  }

  // ---- Every task of a plan ----

  /** A step's gate decides alike, wherever it looks at nothing in doubt. */
  lemma AtEachStep(cfg: Config, vars: Vars, steps: seq<Step>, n: nat)
    requires n < |steps| && PlanOf(vars, steps) && BothReach(cfg, vars, steps, n)
    requires Avoids(steps[n].when, InDoubt(cfg, vars, steps, n))
    ensures DecidesAlike(cfg, Previewed(cfg, vars, steps, n), Real(cfg, vars, steps, n), steps[n].when)
  {
    PreviewSimulates(cfg, vars, steps, n);
    GatesMatch(cfg, InDoubt(cfg, vars, steps, n), Previewed(cfg, vars, steps, n), Real(cfg, vars, steps, n), steps[n].when);
  }

  /** Just before a task of a step: of its own, in an iteration of its loop, or of a section. */
  datatype Place = InBody(iter: nat, task: nat) | InRescue(task: nat) | InAlways(task: nat)

  predicate InStep(s: Step, at: Place) {
    match at
    case InBody(_, task) => task < |s.tasks|
    case InRescue(task) => task < |s.rescue|
    case InAlways(task) => task < |s.always|
  }

  function TaskAt(s: Step, at: Place): Task
    requires InStep(s, at)
  {
    match at
    case InBody(_, task) => s.tasks[task]
    case InRescue(task) => s.rescue[task]
    case InAlways(task) => s.always[task]
  }

  /** A started step run up to a place in it. */
  function RunTo(cfg: Config, st: State, step: nat, s: Step, at: Place): Ran {
    var body := RunBody(cfg, st, step, s);
    match at
    case InBody(iter, task) => BodyTo(cfg, st, step, s, iter, task)
    case InRescue(task) =>
      if body.failure.None? then Ran(body.state, Some(NoSuchModule))
      else Chain(TaskRunner(cfg, step, s.rescue, FirstTask(ShapeOf(s), Rescue), 0), AfterBody(cfg, body), task)
    case InAlways(task) =>
      Chain(TaskRunner(cfg, step, s.always, FirstTask(ShapeOf(s), Always), 0), RunRescue(cfg, step, s, body).state, task)
  }

  /** What is in doubt in the section of a place, `off` being in doubt before the step. */
  ghost function DoubtAt(cfg: Config, off: set<string>, p: State, r: State, step: nat, s: Step, at: Place): set<string> {
    var body := BodyDoubt(cfg, off, p, r, step, s);
    match at
    case InBody(_, _) => off
    case InRescue(_) => body + ERRORS
    case InAlways(_) => RescueDoubt(cfg, body, step, s, RunBody(Dry(cfg), p, step, s), RunBody(Wet(cfg), r, step, s))
  }

  /** The section of a place looks at nothing in doubt. */
  ghost predicate SteadyAt(cfg: Config, off: set<string>, p: State, r: State, step: nat, s: Step, at: Place) {
    match at
    case InBody(_, _) => BodySteady(cfg, off, p, s)
    case InRescue(_) => TasksAvoid(s.rescue, DoubtAt(cfg, off, p, r, step, s, at))
    case InAlways(_) => TasksAvoid(s.always, DoubtAt(cfg, off, p, r, step, s, at))
  }

  lemma PlacesRelated(cfg: Config, off: set<string>, p: State, r: State, step: nat, s: Step, at: Place)
    requires Related(cfg, off, p, r) && Unreserved(p) && Unreserved(r) && WellNamed(s)
    requires RunTo(Dry(cfg), p, step, s, at).failure.None? && RunTo(Wet(cfg), r, step, s, at).failure.None?
    requires SteadyAt(cfg, off, p, r, step, s, at)
    ensures Related(cfg, DoubtAt(cfg, off, p, r, step, s, at),
                    RunTo(Dry(cfg), p, step, s, at).state, RunTo(Wet(cfg), r, step, s, at).state)
  {
    var bp, br := RunBody(Dry(cfg), p, step, s), RunBody(Wet(cfg), r, step, s);
    var doubt := DoubtAt(cfg, off, p, r, step, s, at);
    match at
    case InBody(iter, task) => BodiesMatchAt(cfg, off, p, r, step, s, iter, task);
    case InRescue(task) =>
      BodyKeeps(cfg, off, p, r, step, s);
      BodyFrame(Dry(cfg), p, step, s);
      ExposedStayRelated(cfg, BodyDoubt(cfg, off, p, r, step, s), bp, br);
      RelatedAtTask(cfg, doubt, AfterBody(Dry(cfg), bp), AfterBody(Wet(cfg), br),
                    step, s.rescue, FirstTask(ShapeOf(s), Rescue), 0, task);
    case InAlways(task) =>
      UpToRescue(cfg, off, p, r, step, s);
      RelatedAtTask(cfg, doubt, RunRescue(Dry(cfg), step, s, bp).state, RunRescue(Wet(cfg), step, s, br).state,
                    step, s.always, FirstTask(ShapeOf(s), Always), 0, task);
  }

  lemma SteadyTask(cfg: Config, off: set<string>, p: State, r: State, step: nat, s: Step, at: Place)
    requires InStep(s, at) && SteadyAt(cfg, off, p, r, step, s, at)
    ensures Avoids(TaskAt(s, at).when, DoubtAt(cfg, off, p, r, step, s, at))
  {
  }

  /** Every task of a plan, in whatever section and iteration. Where both runs get to it and its
      section looks at nothing in doubt, the relation holds just before it, and what the preview's
      gate decides there the run's decides the same. */
  lemma AtEachTask(cfg: Config, vars: Vars, steps: seq<Step>, n: nat, at: Place)
    requires n < |steps| && PlanOf(vars, steps) && BothReach(cfg, vars, steps, n) && InStep(steps[n], at)
    requires var p, r := Previewed(cfg, vars, steps, n), Real(cfg, vars, steps, n);
             && RunTo(Dry(cfg), p, n, steps[n], at).failure.None? && RunTo(Wet(cfg), r, n, steps[n], at).failure.None?
             && SteadyAt(cfg, InDoubt(cfg, vars, steps, n), p, r, n, steps[n], at)
    ensures var p, r := Previewed(cfg, vars, steps, n), Real(cfg, vars, steps, n);
            var sp, sr := RunTo(Dry(cfg), p, n, steps[n], at).state, RunTo(Wet(cfg), r, n, steps[n], at).state;
            && Related(cfg, DoubtAt(cfg, InDoubt(cfg, vars, steps, n), p, r, n, steps[n], at), sp, sr)
            && DecidesAlike(cfg, sp, sr, TaskAt(steps[n], at).when)
  {
    var p, r, off := Previewed(cfg, vars, steps, n), Real(cfg, vars, steps, n), InDoubt(cfg, vars, steps, n);
    BetweenSteps(cfg, vars, steps, n);
    PlacesRelated(cfg, off, p, r, n, steps[n], at);
    SteadyTask(cfg, off, p, r, n, steps[n], at);
    GatesMatch(cfg, DoubtAt(cfg, off, p, r, n, steps[n], at), RunTo(Dry(cfg), p, n, steps[n], at).state,
               RunTo(Wet(cfg), r, n, steps[n], at).state, TaskAt(steps[n], at).when);
  }
}
