/** Where in a plan a task runs, and the key that place gives it. */
module TaskKeys {
  /** The key a `host` task is run once under. */
  datatype TaskKey = TaskKey(step: nat, task: nat, iter: nat)

  datatype Section = Body | Rescue | Always

  /** How many tasks each section of a step has. */
  datatype StepShape = StepShape(body: nat, rescue: nat, always: nat)

  function Tasks(shape: StepShape, section: Section): nat {
    match section
    case Body => shape.body
    case Rescue => shape.rescue
    case Always => shape.always
  }

  /** The number a section's first task is counted from. */
  function FirstTask(shape: StepShape, section: Section): nat {
    match section
    case Body => 0
    case Rescue => shape.body
    case Always => shape.body + shape.rescue
  }

  /** A task's run: a loop's items are iterations of its body only. */
  datatype TaskRun = TaskRun(step: nat, section: Section, task: nat, iter: nat)

  predicate InPlan(plan: seq<StepShape>, run: TaskRun) {
    && run.step < |plan| && run.task < Tasks(plan[run.step], run.section)
    && (run.section != Body ==> run.iter == 0)
  }

  function KeyOf(plan: seq<StepShape>, run: TaskRun): TaskKey
    requires run.step < |plan|
  {
    TaskKey(run.step, FirstTask(plan[run.step], run.section) + run.task, run.iter)
  }

  /** Distinct task runs of a plan have distinct keys, across its sections too. */
  lemma KeysAreDistinct(plan: seq<StepShape>, a: TaskRun, b: TaskRun)
    requires InPlan(plan, a) && InPlan(plan, b)
    ensures KeyOf(plan, a) == KeyOf(plan, b) <==> a == b
  {
    var shape := plan[a.step];
    assert FirstTask(shape, a.section) + Tasks(shape, a.section) <= shape.body + shape.rescue + shape.always;
  }
}
