// The contract executor: `_validate_plan`, `_validate_context`, `_execute_steps`,
// `_build_plan_result` and `execute` of `plan_execution_schemas.PlanExecutor`.
//
// Checks on the type or format of a single field all raise the same error; they
// are collapsed into one flag per step (`fieldsOk`), one for the plan fields
// checked before the steps and one for those checked after the dependencies.
module PlanContract {
  import opened Common

  type Id = string

  /** `Other` stands for any string that is not one of the three policies. */
  datatype Policy = Halt | Skip | Retry | Other

  datatype Step = Step(id: Id, dependsOn: seq<Id>, onFailure: Policy, fieldsOk: bool)

  datatype Plan = Plan(headerOk: bool, steps: seq<Step>, tailOk: bool, timeoutMs: int, requirements: seq<string>)

  datatype Context = Context(
    idsOk: bool, startedAt: int, deadlineMs: int, environment: set<string>, optionalsOk: bool)

  datatype Code =
    InvalidPayload | DependencyUnresolved | StepSkipped | ExecutionHalted | ContextMissing | DeadlineExceeded

  datatype Severity = Warn | Error | Fatal
  datatype ExecutionError = ExecutionError(code: Code, stepId: Option<Id>, severity: Severity)

  datatype Status = Success | Partial | Failure
  datatype PlanResult = PlanResult(status: Status, stepsExecuted: nat, stepsTotal: nat, error: Option<ExecutionError>)

  const MAX_STEPS := 1024

  function FatalError(code: Code): ExecutionError {
    ExecutionError(code, None, Fatal)
  }

  // ---------------------------------------------------------------------- validation

  ghost predicate UniqueIds(steps: seq<Step>) {
    forall i, j :: 0 <= i < j < |steps| ==> steps[i].id != steps[j].id
  }

  ghost predicate WellFormed(plan: Plan) {
    && plan.headerOk && 0 < |plan.steps| <= MAX_STEPS
    && (forall i :: 0 <= i < |plan.steps| ==> plan.steps[i].fieldsOk && !plan.steps[i].onFailure.Other?)
    && UniqueIds(plan.steps)
  }

  /** dep is the id of a step listed before position i. */
  ghost predicate ListedBefore(steps: seq<Step>, dep: Id, i: nat)
    requires i <= |steps|
  {
    exists j :: 0 <= j < i && steps[j].id == dep
  }

  ghost predicate DepsListed(steps: seq<Step>, i: nat)
    requires i < |steps|
  {
    forall d :: 0 <= d < |steps[i].dependsOn| ==> ListedBefore(steps, steps[i].dependsOn[d], i)
  }

  /** Every step comes after all steps it depends on. */
  ghost predicate Topological(steps: seq<Step>) {
    forall i :: 0 <= i < |steps| ==> DepsListed(steps, i)
  }

  ghost predicate ValidPlan(plan: Plan) {
    WellFormed(plan) && Topological(plan.steps) && plan.tailOk
  }

  /** Dependency d of step i is the first one, in listing order, not listed before its step. */
  ghost predicate FirstFault(steps: seq<Step>, i: nat, d: nat) {
    && i < |steps| && d < |steps[i].dependsOn|
    && !ListedBefore(steps, steps[i].dependsOn[d], i)
    && (forall k :: 0 <= k < i ==> DepsListed(steps, k))
    && (forall e :: 0 <= e < d ==> ListedBefore(steps, steps[i].dependsOn[e], i))
  }

  /** The error for the first fault: a self-dependency has its own code. */
  ghost predicate FaultCode(steps: seq<Step>, code: Code) {
    exists i: nat, d: nat :: FirstFault(steps, i, d) &&
      code == if steps[i].dependsOn[d] == steps[i].id then InvalidPayload else DependencyUnresolved
  }

  /** A step that depends on itself, and one that depends on nothing that exists. */
  lemma FaultExamples(code: Code)
    ensures FaultCode([Step("a", ["a"], Halt, true)], code) ==> code == InvalidPayload
    ensures FaultCode([Step("a", ["b"], Halt, true)], code) ==> code == DependencyUnresolved
    ensures FaultCode([Step("a", ["b"], Halt, true), Step("b", [], Halt, true)], code) ==> code == DependencyUnresolved
  {
  }

  /** The step loop: ids seen so far, with their positions. */
  method CollectIds(steps: seq<Step>) returns (ok: bool, index: map<Id, nat>)
    ensures ok <==> UniqueIds(steps)
                    && forall i :: 0 <= i < |steps| ==> steps[i].fieldsOk && !steps[i].onFailure.Other?
    ensures ok ==> (forall i :: 0 <= i < |steps| ==> steps[i].id in index && index[steps[i].id] == i)
    ensures ok ==> (forall id | id in index :: index[id] < |steps| && steps[index[id]].id == id)
  {
    index := map[];
    ok := true;
    for i := 0 to |steps|
      invariant ok
      invariant UniqueIds(steps[..i])
      invariant forall k :: 0 <= k < i ==> steps[k].fieldsOk && !steps[k].onFailure.Other?
      invariant forall k :: 0 <= k < i ==> steps[k].id in index && index[steps[k].id] == k
      invariant forall id | id in index :: index[id] < i && steps[index[id]].id == id
    {
      var step := steps[i];
      if step.id in index || !step.fieldsOk || step.onFailure == Other {
        ok := false;
        return;
      }
      index := index[step.id := i];
    }
    assert steps[..|steps|] == steps;
  }

  /** The dependency loop, given the positions of all ids. */
  method CheckDependencies(steps: seq<Step>, index: map<Id, nat>) returns (error: Option<ExecutionError>)
    requires UniqueIds(steps)
    requires forall i :: 0 <= i < |steps| ==> steps[i].id in index && index[steps[i].id] == i
    requires forall id | id in index :: index[id] < |steps| && steps[index[id]].id == id
    ensures error.None? <==> Topological(steps)
    ensures error.Some? ==> error.value.severity == Fatal && FaultCode(steps, error.value.code)
  {
    for i := 0 to |steps|
      invariant forall k :: 0 <= k < i ==> DepsListed(steps, k)
    {
      var step := steps[i];
      for d := 0 to |step.dependsOn|
        invariant forall e :: 0 <= e < d ==> ListedBefore(steps, step.dependsOn[e], i)
      {
        var dep := step.dependsOn[d];
        var fault := if dep !in index then Some(DependencyUnresolved)
                     else if dep == step.id then Some(InvalidPayload)
                     else if index[dep] > i then Some(DependencyUnresolved)
                     else None;
        if fault.Some? {
          assert FirstFault(steps, i, d);
          assert !DepsListed(steps, i);
          return Some(FatalError(fault.value));
        }
        assert steps[index[dep]].id == dep;
      }
    }
    return None;
  }

  method ValidatePlan(plan: Plan) returns (error: Option<ExecutionError>)
    ensures error.None? <==> ValidPlan(plan)
    ensures error.Some? ==> error.value.severity == Fatal
    ensures error.Some? ==>
      if WellFormed(plan) && !Topological(plan.steps) then FaultCode(plan.steps, error.value.code)
      else error.value.code == InvalidPayload
    ensures |plan.steps| == 0 || |plan.steps| > 1024 ==> error == Some(ExecutionError(InvalidPayload, None, Fatal))
    ensures plan.headerOk && plan.tailOk && 0 < |plan.steps| <= 1024 && UniqueIds(plan.steps) && Topological(plan.steps)
            && (forall i :: 0 <= i < |plan.steps| ==>
                  plan.steps[i].fieldsOk && plan.steps[i].onFailure in {Halt, Skip, Retry})
            ==> error == None
  {
    if !plan.headerOk || |plan.steps| == 0 || |plan.steps| > MAX_STEPS {
      return Some(FatalError(InvalidPayload));
    }
    var ok, index := CollectIds(plan.steps);
    if !ok {
      return Some(FatalError(InvalidPayload));
    }
    error := CheckDependencies(plan.steps, index);
    if error.None? && !plan.tailOk {
      return Some(FatalError(InvalidPayload));
    }
  }

  /** The window fits the plan's timeout, and everything the plan needs is there. */
  ghost predicate ValidContext(plan: Plan, ctx: Context) {
    && ctx.idsOk && ctx.optionalsOk && 0 < ctx.startedAt < ctx.deadlineMs
    && plan.timeoutMs <= ctx.deadlineMs - ctx.startedAt
    && forall i :: 0 <= i < |plan.requirements| ==> plan.requirements[i] in ctx.environment
  }

  ghost predicate Identified(ctx: Context) {
    ctx.idsOk && ctx.startedAt > 0 && ctx.deadlineMs > 0
  }

  ghost predicate WindowFits(plan: Plan, ctx: Context) {
    ctx.deadlineMs > ctx.startedAt && ctx.deadlineMs - ctx.startedAt >= plan.timeoutMs
  }

  ghost predicate AllPresent(plan: Plan, ctx: Context) {
    forall i :: 0 <= i < |plan.requirements| ==> plan.requirements[i] in ctx.environment
  }

  /** The error for each cause: identity and times first, then the window, then what
      the plan requires, then the optional fields. */
  ghost predicate ContextError(plan: Plan, ctx: Context, error: Option<ExecutionError>) {
    && (error == Some(ExecutionError(DeadlineExceeded, None, Fatal)) <==> Identified(ctx) && !WindowFits(plan, ctx))
    && (error == Some(ExecutionError(ContextMissing, None, Fatal)) <==>
          Identified(ctx) && WindowFits(plan, ctx) && !AllPresent(plan, ctx))
    && (error == Some(ExecutionError(InvalidPayload, None, Fatal)) <==>
          !Identified(ctx) || (WindowFits(plan, ctx) && AllPresent(plan, ctx) && !ctx.optionalsOk))
    && (error == None <==> Identified(ctx) && WindowFits(plan, ctx) && AllPresent(plan, ctx) && ctx.optionalsOk)
  }

  function ValidateContext(plan: Plan, ctx: Context): (error: Option<ExecutionError>)
    ensures error.None? <==> ValidContext(plan, ctx)
    ensures ContextError(plan, ctx, error)
  {
    if !ctx.idsOk || ctx.startedAt <= 0 || ctx.deadlineMs <= 0 then Some(FatalError(InvalidPayload))
    else if ctx.deadlineMs <= ctx.startedAt then Some(FatalError(DeadlineExceeded))
    else if ctx.deadlineMs - ctx.startedAt < plan.timeoutMs then Some(FatalError(DeadlineExceeded))
    else if exists k | k in plan.requirements :: k !in ctx.environment then Some(FatalError(ContextMissing))
    else if !ctx.optionalsOk then Some(FatalError(InvalidPayload))
    else None
  }

  // ----------------------------------------------------------------------- execution

  /** Progress of the step loop. */
  datatype Run = Run(executed: nat, error: Option<ExecutionError>, completed: set<Id>, stopped: bool)

  predicate Satisfied(step: Step, completed: set<Id>) {
    forall d :: 0 <= d < |step.dependsOn| ==> step.dependsOn[d] in completed
  }

  function StepError(step: Step): ExecutionError {
    match step.onFailure
    case Skip => ExecutionError(StepSkipped, Some(step.id), Warn)
    case Retry => ExecutionError(ExecutionHalted, Some(step.id), Fatal)
    case _ => ExecutionError(DependencyUnresolved, Some(step.id), Error)
  }

  function RunStep(r: Run, step: Step): Run {
    if r.stopped then r
    else if Satisfied(step, r.completed) then
      r.(executed := r.executed + 1, completed := r.completed + {step.id})
    else
      r.(error := Some(StepError(step)), stopped := step.onFailure.Halt? || step.onFailure.Retry?)
  }

  function RunTo(steps: seq<Step>, k: nat): Run
    requires k <= |steps|
  {
    if k == 0 then Run(0, None, {}, false) else RunStep(RunTo(steps, k - 1), steps[k - 1])
  }

  lemma {:induction false} StoppedStays(steps: seq<Step>, k: nat, n: nat)
    requires k <= n <= |steps| && RunTo(steps, k).stopped
    ensures RunTo(steps, n) == RunTo(steps, k)
    decreases n
  {
    if k == n {
    } else {
      StoppedStays(steps, k, n - 1);
    }
  }

  method ExecuteSteps(steps: seq<Step>) returns (stepsExecuted: nat, firstError: Option<ExecutionError>)
    ensures stepsExecuted == RunTo(steps, |steps|).executed && firstError == RunTo(steps, |steps|).error
  {
    stepsExecuted, firstError := 0, None;
    var completed: set<Id> := {};
    for i := 0 to |steps|
      invariant Run(stepsExecuted, firstError, completed, false) == RunTo(steps, i)
    {
      var step := steps[i];
      var satisfied := true;
      for d := 0 to |step.dependsOn|
        invariant satisfied ==> firstError == RunTo(steps, i).error
        invariant satisfied <==> forall e :: 0 <= e < d ==> step.dependsOn[e] in completed
        invariant !satisfied ==> step.onFailure.Other? && firstError == Some(StepError(step))
      {
        if step.dependsOn[d] !in completed {
          satisfied := false;
          firstError := Some(ExecutionError(DependencyUnresolved, Some(step.id), Error));
          if step.onFailure == Halt {
            StoppedStays(steps, i + 1, |steps|);
            return;
          } else if step.onFailure == Skip {
            firstError := Some(ExecutionError(StepSkipped, Some(step.id), Warn));
            break;
          } else if step.onFailure == Retry {
            firstError := Some(ExecutionError(ExecutionHalted, Some(step.id), Fatal));
            StoppedStays(steps, i + 1, |steps|);
            return;
          }
        }
      }
      if satisfied {
        completed := completed + {step.id};
        stepsExecuted := stepsExecuted + 1;
      }
    }
  }

  function InferStatus(stepsExecuted: nat, stepsTotal: nat, error: Option<ExecutionError>): Status {
    if error.None? && stepsExecuted == stepsTotal then Success
    else if error.Some? && error.value.severity != Fatal && stepsExecuted > 0 then Partial
    else if error.Some? then Failure
    else Partial
  }

  function BuildPlanResult(plan: Plan, stepsExecuted: nat, error: Option<ExecutionError>): PlanResult {
    PlanResult(InferStatus(stepsExecuted, |plan.steps|, error), stepsExecuted, |plan.steps|, error)
  }
}
