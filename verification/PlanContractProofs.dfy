// What the contract executor guarantees: accepted plans are acyclic and run to the
// end, which steps run on any plan at all, and what the status can be.
module PlanContractProofs {
  import opened Common
  import opened PlanContract

  // ------------------------------------------------------------------------ acyclicity

  ghost predicate DependsOn(steps: seq<Step>, a: Id, b: Id) {
    exists i :: 0 <= i < |steps| && steps[i].id == a && b in steps[i].dependsOn
  }

  /** A non-empty chain of dependencies, each id depending on the next. */
  ghost predicate DependencyPath(steps: seq<Step>, p: seq<Id>) {
    |p| >= 2 && forall k, l :: 0 <= k && l == k + 1 && l < |p| ==> DependsOn(steps, p[k], p[l])
  }

  lemma {:induction false} PathDescends(steps: seq<Step>, p: seq<Id>, n: nat) returns (i: nat, j: nat)
    requires UniqueIds(steps) && Topological(steps) && DependencyPath(steps, p) && 1 <= n < |p|
    ensures j < i < |steps| && steps[i].id == p[0] && steps[j].id == p[n]
  {
    if n == 1 {
      i, j := EdgeDescends(steps, p[0], p[1]);
    } else {
      var m;
      i, m := PathDescends(steps, p, n - 1);
      var k;
      k, j := EdgeDescends(steps, p[n - 1], p[n]);
      assert k == m;
    }
  }

  lemma EdgeDescends(steps: seq<Step>, a: Id, b: Id) returns (i: nat, j: nat)
    requires Topological(steps) && DependsOn(steps, a, b)
    ensures j < i < |steps| && steps[i].id == a && steps[j].id == b
  {
    i :| 0 <= i < |steps| && steps[i].id == a && b in steps[i].dependsOn;
    var d :| 0 <= d < |steps[i].dependsOn| && steps[i].dependsOn[d] == b;
    assert DepsListed(steps, i);
    assert ListedBefore(steps, steps[i].dependsOn[d], i);
    j :| 0 <= j < i && steps[j].id == b;
  }

  /** In an accepted plan no chain of dependencies returns to where it started. */
  lemma AcceptedIsAcyclic(plan: Plan, p: seq<Id>)
    requires ValidPlan(plan) && DependencyPath(plan.steps, p)
    ensures p[0] != p[|p| - 1]
  {
    var i, j := PathDescends(plan.steps, p, |p| - 1);
  }

  // ------------------------------------------------------------------- which steps run

  /** S is a set of positions each of whose dependencies is the id of an earlier position in S. */
  ghost predicate Supported(steps: seq<Step>, S: set<nat>) {
    forall i | i in S :: i < |steps| && SupportedAt(steps, S, i)
  }

  ghost predicate SupportedAt(steps: seq<Step>, S: set<nat>, i: nat)
    requires i < |steps|
  {
    forall d :: 0 <= d < |steps[i].dependsOn| ==> HasSupport(steps, S, i, steps[i].dependsOn[d])
  }

  /** dep is the id of a position in S before i. */
  ghost predicate HasSupport(steps: seq<Step>, S: set<nat>, i: nat, dep: Id)
    requires i < |steps|
  {
    exists j :: j in S && j < i && steps[j].id == dep
  }

  /** The positions before k whose dependencies are met by earlier ones of them. */
  ghost function Runnable(steps: seq<Step>, k: nat): (S: set<nat>)
    requires k <= |steps|
    ensures forall i | i in S :: i < k
  {
    if k == 0 then {} else
    var S := Runnable(steps, k - 1);
    if SupportedAt(steps, S, k - 1) then S + {k - 1} else S
  }

  lemma {:induction false} RunnableSupported(steps: seq<Step>, k: nat)
    requires k <= |steps|
    ensures Supported(steps, Runnable(steps, k))
  {
    if k == 0 {
    } else {
      RunnableSupported(steps, k - 1);
      forall i | i in Runnable(steps, k) ensures SupportedAt(steps, Runnable(steps, k), i) {
        assert SupportedAt(steps, Runnable(steps, k - 1), i);
      }
    }
  }

  lemma SupportedMore(steps: seq<Step>, S: set<nat>, T: set<nat>, i: nat)
    requires i < |steps| && SupportedAt(steps, S, i) && forall j | j in S && j < i :: j in T
    ensures SupportedAt(steps, T, i)
  {
    forall dep | HasSupport(steps, S, i, dep) ensures HasSupport(steps, T, i, dep) {
      var j :| j in S && j < i && steps[j].id == dep;
    }
  }

  lemma {:induction false} RunnableGreatest(steps: seq<Step>, k: nat, S: set<nat>)
    requires k <= |steps| && Supported(steps, S)
    ensures (set i | i in S && i < k) <= Runnable(steps, k)
  {
    if k == 0 {
    } else {
      RunnableGreatest(steps, k - 1, S);
      if k - 1 in S {
        assert SupportedAt(steps, S, k - 1);
        SupportedMore(steps, S, Runnable(steps, k - 1), k - 1);
      }
    }
  }

  ghost predicate Stops(step: Step) {
    step.onFailure.Halt? || step.onFailure.Retry?
  }

  /** No position before k both lacks support and has a stopping policy. */
  ghost predicate NoStopBefore(steps: seq<Step>, k: nat)
    requires k <= |steps|
  {
    forall i :: 0 <= i < k && Stops(steps[i]) ==> i in Runnable(steps, i + 1)
  }

  lemma {:induction false} RunnableStable(steps: seq<Step>, k: nat, n: nat, i: nat)
    requires i < k <= n <= |steps|
    ensures i in Runnable(steps, k) <==> i in Runnable(steps, n)
    decreases n
  {
    if k == n {
    } else {
      RunnableStable(steps, k, n - 1, i);
    }
  }

  ghost predicate Tracks(steps: seq<Step>, k: nat, r: Run)
    requires k <= |steps|
  {
    var S := Runnable(steps, k);
    && !r.stopped
    && r.completed == (set i | i in S :: steps[i].id)
    && r.executed == |S|
    && (r.error.None? <==> |S| == k)
  }

  lemma {:induction false} RunnableSize(steps: seq<Step>, k: nat)
    requires k <= |steps|
    ensures |Runnable(steps, k)| <= k
  {
    if k == 0 {
    } else {
      RunnableSize(steps, k - 1);
    }
  }

  lemma SatisfiedIsSupported(steps: seq<Step>, k: nat, completed: set<Id>)
    requires k < |steps| && completed == set i | i in Runnable(steps, k) :: steps[i].id
    ensures Satisfied(steps[k], completed) <==> SupportedAt(steps, Runnable(steps, k), k)
  {
    var S := Runnable(steps, k);
    forall d | 0 <= d < |steps[k].dependsOn|
      ensures steps[k].dependsOn[d] in completed <==> HasSupport(steps, S, k, steps[k].dependsOn[d])
    {
    }
  }

  lemma TrackStep(steps: seq<Step>, k: nat, r: Run)
    requires k < |steps| && Tracks(steps, k, r)
    requires Stops(steps[k]) ==> k in Runnable(steps, k + 1)
    ensures Tracks(steps, k + 1, RunStep(r, steps[k]))
  {
    RunnableSize(steps, k);
    SatisfiedIsSupported(steps, k, r.completed);
    var S, T := Runnable(steps, k), Runnable(steps, k + 1);
    if SupportedAt(steps, S, k) {
      assert k in T;
      assert (set i | i in T :: steps[i].id) == (set i | i in S :: steps[i].id) + {steps[k].id};
    }
  }

  /** Up to the first stop, the loop has completed exactly the runnable steps. */
  lemma {:induction false} RunTracks(steps: seq<Step>, k: nat)
    requires k <= |steps| && NoStopBefore(steps, k)
    ensures Tracks(steps, k, RunTo(steps, k))
  {
    if k == 0 {
    } else {
      RunTracks(steps, k - 1);
      TrackStep(steps, k - 1, RunTo(steps, k - 1));
    }
  }

  /** Where the loop stops: the first unsupported step with a stopping policy, if any. */
  ghost function StopAt(steps: seq<Step>, k: nat): (n: nat)
    requires k <= |steps|
    ensures k <= n <= |steps|
    decreases |steps| - k
  {
    if k == |steps| || (Stops(steps[k]) && k !in Runnable(steps, k + 1)) then k else StopAt(steps, k + 1)
  }

  lemma {:induction false} StopAtFirst(steps: seq<Step>, k: nat)
    requires k <= |steps| && NoStopBefore(steps, k)
    ensures var n := StopAt(steps, k);
      NoStopBefore(steps, n) && (n < |steps| ==> Stops(steps[n]) && n !in Runnable(steps, n + 1))
    decreases |steps| - k
  {
    if k == |steps| || (Stops(steps[k]) && k !in Runnable(steps, k + 1)) {
    } else {
      StopAtFirst(steps, k + 1);
    }
  }

  /** The runnable positions are the greatest supported set. */
  lemma RunnableIsGreatest(steps: seq<Step>)
    ensures Supported(steps, Runnable(steps, |steps|))
    ensures forall S: set<nat> :: Supported(steps, S) ==> S <= Runnable(steps, |steps|)
  {
    RunnableSupported(steps, |steps|);
    forall S: set<nat> | Supported(steps, S) ensures S <= Runnable(steps, |steps|) {
      RunnableGreatest(steps, |steps|, S);
      assert S == set i | i in S && i < |steps|;
    }
  }

  /** On any plan, whatever its ids, order and policies, the steps executed are those
      before the stop that lie in the greatest supported set of positions. */
  lemma ExecutedSteps(steps: seq<Step>)
    ensures var n := StopAt(steps, 0);
      var S := set i | i in Runnable(steps, |steps|) && i < n;
      var r := RunTo(steps, |steps|);
      && r.executed == |S| && r.completed == (set i | i in S :: steps[i].id)
      && (n < |steps| ==> r.error == Some(StepError(steps[n])))
  {
    hide Satisfied, Runnable, SupportedAt, RunStep;
    var n := StopAt(steps, 0);
    StopAtFirst(steps, 0);
    RunTracks(steps, n);
    PrefixOfRunnable(steps, n);
    LoopEndsAtStop(steps, n);
  }

  lemma PrefixOfRunnable(steps: seq<Step>, n: nat)
    requires n <= |steps|
    ensures (set i | i in Runnable(steps, |steps|) && i < n) == Runnable(steps, n)
  {
    forall i | 0 <= i < n ensures i in Runnable(steps, n) <==> i in Runnable(steps, |steps|) {
      RunnableStable(steps, n, |steps|, i);
    }
  }

  lemma StopStep(steps: seq<Step>, n: nat, r: Run)
    requires n < |steps| && Tracks(steps, n, r) && Stops(steps[n]) && n !in Runnable(steps, n + 1)
    ensures RunStep(r, steps[n]) == r.(error := Some(StepError(steps[n])), stopped := true)
  {
    SatisfiedIsSupported(steps, n, r.completed);
  }

  lemma LoopEndsAtStop(steps: seq<Step>, n: nat)
    requires n <= |steps| && Tracks(steps, n, RunTo(steps, n))
    requires n < |steps| ==> Stops(steps[n]) && n !in Runnable(steps, n + 1)
    ensures RunTo(steps, |steps|) == if n == |steps| then RunTo(steps, n)
      else RunTo(steps, n).(error := Some(StepError(steps[n])), stopped := true)
  {
    hide Tracks, Satisfied, Runnable;
    if n < |steps| {
      StopStep(steps, n, RunTo(steps, n));
      StoppedStays(steps, n + 1, |steps|);
    }
  }

  // ------------------------------------------------------------------- errors and status

  lemma {:induction false} ErrorIffMissing(steps: seq<Step>, k: nat)
    requires k <= |steps|
    ensures var r := RunTo(steps, k);
      r.executed <= k && (r.error.None? <==> r.executed == k) && (r.stopped ==> r.error.Some?)
  {
    if k == 0 {
    } else {
      ErrorIffMissing(steps, k - 1);
    }
  }

  /** For any mix of policies: no error, every step executed, and status success are
      the same thing; so the last branch of the status inference is never taken. */
  lemma SuccessIffComplete(steps: seq<Step>)
    ensures var r := RunTo(steps, |steps|);
      && (r.error.None? <==> r.executed == |steps|)
      && (InferStatus(r.executed, |steps|, r.error) == Success <==> r.executed == |steps|)
      && (InferStatus(r.executed, |steps|, r.error) == Partial ==>
            r.error.Some? && r.error.value.severity != Fatal && r.executed > 0)
  {
    ErrorIffMissing(steps, |steps|);
  }

  /** What is reported of a step that is missed, by its policy. */
  ghost predicate ReportsMiss(step: Step, error: ExecutionError) {
    && error.stepId == Some(step.id)
    && match step.onFailure
       case Skip => error.code == StepSkipped && error.severity == Warn
       case Retry => error.code == ExecutionHalted && error.severity == Fatal
       case Halt => error.code == DependencyUnresolved && error.severity == Error
       case Other => error.code == DependencyUnresolved && error.severity == Error
  }

  /** The reported error is that of the LAST step that was reached and not executed,
      whatever its policy, with the code and severity that policy has. */
  lemma {:induction false} LastErrorReported(steps: seq<Step>, k: nat) returns (i: nat)
    requires k <= |steps| && RunTo(steps, k).error.Some?
    ensures i < k && RunTo(steps, k).error == Some(StepError(steps[i]))
    ensures ReportsMiss(steps[i], RunTo(steps, k).error.value)
    ensures !Satisfied(steps[i], RunTo(steps, i).completed) && !RunTo(steps, i).stopped
    ensures forall j :: i < j < k ==> Satisfied(steps[j], RunTo(steps, j).completed) || RunTo(steps, j).stopped
  {
    ErrorReports(steps[k - 1]);
    hide StepError, ReportsMiss;
    var r := RunTo(steps, k - 1);
    if r.stopped || Satisfied(steps[k - 1], r.completed) {
      i := LastErrorReported(steps, k - 1);
    } else {
      i := k - 1;
    }
  }

  lemma ErrorReports(step: Step)
    ensures ReportsMiss(step, StepError(step))
  {
  }

  /** The loop reaches the step and does not execute it: it comes no later than the
      stop and is not among the runnable ones. */
  ghost predicate Missed(steps: seq<Step>, i: nat) {
    i < |steps| && i <= StopAt(steps, 0) && i !in Runnable(steps, i + 1)
  }

  lemma MissedMeaning(steps: seq<Step>, i: nat)
    requires i < |steps|
    ensures Missed(steps, i) <==> !Satisfied(steps[i], RunTo(steps, i).completed) && !RunTo(steps, i).stopped
  {
    var n := StopAt(steps, 0);
    StopAtFirst(steps, 0);
    if i <= n {
      RunTracks(steps, i);
      SatisfiedIsSupported(steps, i, RunTo(steps, i).completed);
    } else {
      RunTracks(steps, n);
      StopStep(steps, n, RunTo(steps, n));
      StoppedStays(steps, n + 1, i);
    }
  }

  /** The variable is called `first_error`: with unique ids, the error of a missed step
      is the one reported if and only if no later step is missed; so that of the first
      missed step is reported if and only if it is the only one. */
  lemma FirstErrorIff(steps: seq<Step>, first: nat)
    requires UniqueIds(steps) && Missed(steps, first)
    ensures RunTo(steps, |steps|).error == Some(StepError(steps[first]))
            <==> forall i: nat | first < i :: !Missed(steps, i)
    ensures (forall i :: 0 <= i < first ==> !Missed(steps, i)) ==>
      (RunTo(steps, |steps|).error == Some(StepError(steps[first]))
       <==> forall i: nat | Missed(steps, i) :: i == first)
  {
    var last := LastMissed(steps, first);
    hide Missed, RunTo, StepError, UniqueIds;
    if first < last {
      ErrorsDiffer(steps, first, last);
    }
  }

  lemma ErrorsDiffer(steps: seq<Step>, i: nat, j: nat)
    requires UniqueIds(steps) && i < j < |steps|
    ensures StepError(steps[i]) != StepError(steps[j])
  {
  }

  lemma LastMissed(steps: seq<Step>, i: nat) returns (last: nat)
    requires Missed(steps, i)
    ensures i <= last < |steps| && Missed(steps, last) && forall j: nat | last < j :: !Missed(steps, j)
    ensures RunTo(steps, |steps|).error == Some(StepError(steps[last]))
  {
    SomeError(steps, i, |steps|);
    last := LastErrorReported(steps, |steps|);
    MissedMeaning(steps, last);
    hide Runnable, StopAt, RunTo, Satisfied, StepError;
    forall j: nat | last < j ensures !Missed(steps, j) {
      if j < |steps| { MissedMeaning(steps, j); }
    }
  }

  lemma {:induction false} SomeError(steps: seq<Step>, i: nat, k: nat)
    requires Missed(steps, i) && i < k <= |steps|
    ensures RunTo(steps, k).error.Some?
    decreases k
  {
    if k == i + 1 {
      MissedMeaning(steps, i);
    } else {
      SomeError(steps, i, k - 1);
    }
  }

  /** A step missed under a policy other than to skip it. */
  ghost predicate MissedFirmly(steps: seq<Step>, i: nat) {
    Missed(steps, i) && !steps[i].onFailure.Skip?
  }

  /** What is documented to be reported: the first non-skipped error, or None. */
  ghost predicate DocumentedError(steps: seq<Step>, error: Option<ExecutionError>) {
    if error.None? then
      forall i: nat :: !MissedFirmly(steps, i)
    else
      exists i: nat :: FirstFirm(steps, i) && error == Some(StepError(steps[i]))
  }

  ghost predicate FirstFirm(steps: seq<Step>, i: nat) {
    MissedFirmly(steps, i) && forall j: nat | j < i :: !MissedFirmly(steps, j)
  }

  /** Under the three policies a plan can have, the reported error is the documented one
      if and only if nothing is missed or some step is missed on halt or retry: after
      the steps skipped before it the loop stops there. */
  lemma NonSkippedErrorIff(steps: seq<Step>)
    requires forall i :: 0 <= i < |steps| ==> !steps[i].onFailure.Other?
    ensures DocumentedError(steps, RunTo(steps, |steps|).error)
            <==> (forall i: nat :: !Missed(steps, i)) || (exists i: nat :: MissedFirmly(steps, i))
  {
    var n := StopAt(steps, 0);
    forall i: nat | MissedFirmly(steps, i) ensures i == n {
      FirmStops(steps, i);
    }
    ExecutedSteps(steps);
    NoErrorIff(steps);
    hide Missed, StopAt, RunTo, StepError;
    if i: nat :| MissedFirmly(steps, i) {
      assert FirstFirm(steps, n);
    }
  }

  lemma FirmStops(steps: seq<Step>, i: nat)
    requires MissedFirmly(steps, i) && !steps[i].onFailure.Other?
    ensures i == StopAt(steps, 0) < |steps|
  {
    StopAtFirst(steps, 0);
  }

  lemma NoErrorIff(steps: seq<Step>)
    ensures RunTo(steps, |steps|).error.None? <==> forall i: nat :: !Missed(steps, i)
  {
    if i: nat :| Missed(steps, i) {
      SomeError(steps, i, |steps|);
    } else {
      if RunTo(steps, |steps|).error.Some? {
        var i := LastErrorReported(steps, |steps|);
        MissedMeaning(steps, i);
        assert false;
      }
    }
  }

  /** The status of a run over any steps: success if nothing is missed; otherwise failure
      if nothing was executed or the last step missed is on retry, and else partial. */
  lemma StatusIff(steps: seq<Step>)
    ensures var r := RunTo(steps, |steps|);
      var status := InferStatus(r.executed, |steps|, r.error);
      && (status == Success <==> forall i: nat :: !Missed(steps, i))
      && (status == Failure <==>
            exists i: nat :: IsLastMissed(steps, i) && (r.executed == 0 || steps[i].onFailure.Retry?))
      && (status == Partial <==>
            exists i: nat :: IsLastMissed(steps, i) && r.executed > 0 && !steps[i].onFailure.Retry?)
  {
    var r := RunTo(steps, |steps|);
    NoErrorIff(steps);
    SuccessIffComplete(steps);
    if i: nat :| Missed(steps, i) {
      var last := LastMissed(steps, i);
      ErrorReports(steps[last]);
      hide Missed, RunTo, StepError;
      assert IsLastMissed(steps, last) && forall j: nat | IsLastMissed(steps, j) :: j == last;
    } else {
      hide Missed, RunTo, StepError;
    }
  }

  ghost predicate IsLastMissed(steps: seq<Step>, i: nat) {
    i < |steps| && Missed(steps, i) && forall j: nat | i < j :: !Missed(steps, j)
  }

  const SKIPPED := [Step("a", ["x"], Skip, true), Step("b", ["y"], Skip, true)]

  /** Two steps that are skipped: the error of the second is reported, which is neither
      the first one nor, since none was missed on halt or retry, a documented one. */
  lemma TwoSkipsExample()
    ensures UniqueIds(SKIPPED) && Missed(SKIPPED, 0)
    ensures RunTo(SKIPPED, 2).error == Some(StepError(SKIPPED[1])) != Some(StepError(SKIPPED[0]))
    ensures DocumentedError(SKIPPED, None) && !DocumentedError(SKIPPED, RunTo(SKIPPED, 2).error)
  {
    assert RunTo(SKIPPED, 0) == Run(0, None, {}, false);
    assert "x" in SKIPPED[0].dependsOn && "y" in SKIPPED[1].dependsOn;
    var r := RunTo(SKIPPED, 1);
    assert r.completed == {} && !r.stopped;
    MissedMeaning(SKIPPED, 0);
  }

  lemma {:induction false} TopologicalCompletes(steps: seq<Step>, k: nat)
    requires k <= |steps| && Topological(steps)
    ensures RunTo(steps, k) == Run(k, None, set i | 0 <= i < k :: steps[i].id, false)
  {
    if k == 0 {
    } else {
      TopologicalCompletes(steps, k - 1);
      assert DepsListed(steps, k - 1);
      var done := set i | 0 <= i < k - 1 :: steps[i].id;
      var deps := steps[k - 1].dependsOn;
      forall d | 0 <= d < |deps| ensures deps[d] in done {
        assert ListedBefore(steps, deps[d], k - 1);
      }
      assert (set i | 0 <= i < k :: steps[i].id) == done + {steps[k - 1].id};
    }
  }

  /** `execute`, with the context check called on the context as intended.  It ends in
      success, every step executed, exactly when plan and context are valid, and in
      failure with nothing executed otherwise: it never reports partial success. */
  method Execute(plan: Plan, ctx: Context) returns (result: PlanResult)
    ensures result.stepsTotal == |plan.steps|
    ensures result.status == Success <==> ValidPlan(plan) && ValidContext(plan, ctx)
    ensures result.status == Success ==> result.stepsExecuted == |plan.steps| && result.error == None
    ensures result.status != Success ==>
      && result.status == Failure && result.stepsExecuted == 0
      && result.error.Some? && result.error.value.severity == Fatal
    ensures ValidPlan(plan) ==> ContextError(plan, ctx, result.error)
    ensures !ValidPlan(plan) ==>
      if WellFormed(plan) && !Topological(plan.steps) then FaultCode(plan.steps, result.error.value.code)
      else result.error.value.code == InvalidPayload
  {
    var error := ValidatePlan(plan);
    if error.Some? {
      return BuildPlanResult(plan, 0, error);
    }
    error := ValidateContext(plan, ctx);
    if error.Some? {
      return BuildPlanResult(plan, 0, error);
    }
    var executed, firstError := ExecuteSteps(plan.steps);
    TopologicalCompletes(plan.steps, |plan.steps|);
    return BuildPlanResult(plan, executed, firstError);
  }
}
