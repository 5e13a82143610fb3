// What a run of the plan walker leaves behind, and the walker itself: the nested
// loops of `run_plan` over a context object.
module PlanRuns {
  import opened Common
  import opened PlanWalk

  /** The attempts a visit makes and where it leads. */
  function Tries(plan: Plan, oracle: Oracle, i: nat, id: Id): Option<nat>
    requires id in plan
  {
    FirstOk(oracle, i, 1, plan[id].retries)
  }

  function Used(plan: Plan, oracle: Oracle, i: nat, id: Id): int
    requires id in plan
  {
    match Tries(plan, oracle, i, id) case Some(k) => k case None => plan[id].retries
  }

  function Successor(plan: Plan, oracle: Oracle, i: nat, id: Id): Id
    requires id in plan
  {
    if Tries(plan, oracle, i, id).Some? then plan[id].onSuccess else plan[id].onFailure
  }

  ghost predicate Succeeded(plan: Plan, oracle: Oracle, visits: seq<Id>, id: Id) {
    exists i :: 0 <= i < |visits| && visits[i] == id && id in plan && Tries(plan, oracle, i, id).Some?
  }

  ghost predicate FailedForGood(plan: Plan, oracle: Oracle, visits: seq<Id>) {
    && visits != [] && visits[|visits| - 1] in plan
    && Tries(plan, oracle, |visits| - 1, visits[|visits| - 1]).None?
    && plan[visits[|visits| - 1]].onFailure == NoStep
  }

  /** The steps visited follow the edges their outcomes select, none twice. */
  ghost predicate Path(plan: Plan, start: Id, oracle: Oracle, visits: seq<Id>) {
    && Distinct(visits)
    && (forall i :: 0 <= i < |visits| ==> visits[i] in plan && plan[visits[i]].retries >= 1)
    && (visits != [] ==> visits[0] == start)
    && (forall i, j :: 0 <= i < |visits| && j == i + 1 && j < |visits| ==>
          visits[j] == Successor(plan, oracle, i, visits[i]))
  }

  /** The loop variable is where the last visit leads; the walk returns when that is
      no step, or when the last visit failed for good. */
  ghost predicate End(plan: Plan, start: Id, oracle: Oracle, c: Config) {
    && (c.visits == [] ==> c.current == start)
    && (c.visits != [] && c.visits[|c.visits| - 1] in plan && !FailedForGood(plan, oracle, c.visits) ==>
          c.current == Successor(plan, oracle, |c.visits| - 1, c.visits[|c.visits| - 1]))
    && (c.halted ==> FailedForGood(plan, oracle, c.visits) || c.current == NoStep || c.current !in plan)
    && (FailedForGood(plan, oracle, c.visits) ==> c.halted)
  }

  /** Visit i makes the calls it uses, and no step is called outside its visit. */
  ghost predicate CallsOk(plan: Plan, oracle: Oracle, visits: seq<Id>, calls: seq<Id>) {
    && (forall i :: 0 <= i < |visits| ==> CalledAsUsed(plan, oracle, i, visits[i], calls))
    && (forall id: Id :: id in calls ==> id in visits)
  }

  ghost predicate CalledAsUsed(plan: Plan, oracle: Oracle, i: nat, id: Id, calls: seq<Id>) {
    id in plan && multiset(calls)[id] == Used(plan, oracle, i, id) <= plan[id].retries
  }

  ghost predicate ResultsOk(plan: Plan, oracle: Oracle, before: map<Id, int>, visits: seq<Id>, after: map<Id, int>) {
    && (forall i :: 0 <= i < |visits| ==> ResultKept(plan, oracle, i, visits[i], after))
    && (forall id: Id :: id in after ==>
          Succeeded(plan, oracle, visits, id) || (id in before && after[id] == before[id]))
    && (forall id: Id :: id in before ==> id in after)
  }

  ghost predicate ResultKept(plan: Plan, oracle: Oracle, i: nat, id: Id, results: map<Id, int>) {
    id in plan && Tries(plan, oracle, i, id).Some? ==>
      id in results && results[id] == oracle(i, Tries(plan, oracle, i, id).value).value
  }

  ghost predicate DlqOk(plan: Plan, oracle: Oracle, visits: seq<Id>, dlq: seq<Id>) {
    dlq == if FailedForGood(plan, oracle, visits) then [visits[|visits| - 1]] else []
  }

  ghost predicate Facts(plan: Plan, start: Id, oracle: Oracle, results: map<Id, int>, c: Config) {
    && Path(plan, start, oracle, c.visits)
    && End(plan, start, oracle, c)
    && CallsOk(plan, oracle, c.visits, c.calls)
    && ResultsOk(plan, oracle, results, c.visits, c.results)
    && DlqOk(plan, oracle, c.visits, c.dlq)
  }

  lemma RepeatCount(id: Id, n: int, x: Id)
    ensures multiset(Repeat(id, n))[x] == if x == id && n > 0 then n else 0
    decreases n
  {
    if n <= 0 {
    } else {
      RepeatCount(id, n - 1, x);
      assert Repeat(id, n) == Repeat(id, n - 1) + [id];
    }
  }

  /** What a visit of a fresh step does, stated by its outcome. */
  lemma VisitShape(plan: Plan, oracle: Oracle, c: Config)
    requires AtStep(plan, c) && plan[c.current].retries >= 1
    ensures var d := Visit(plan, oracle, c);
      var i, id := |c.visits|, c.current;
      && d.visits == c.visits + [id]
      && d.calls == c.calls + Repeat(id, Used(plan, oracle, i, id))
      && (Tries(plan, oracle, i, id).Some? ==>
            d.results == c.results[id := oracle(i, Tries(plan, oracle, i, id).value).value])
      && (Tries(plan, oracle, i, id).None? ==> d.results == c.results)
      && (if FailedForGood(plan, oracle, d.visits) then d.halted && d.dlq == c.dlq + [id]
          else !d.halted && d.dlq == c.dlq && d.current == Successor(plan, oracle, i, id))
  {
  }

  lemma VisitPath(plan: Plan, start: Id, oracle: Oracle, c: Config)
    requires AtStep(plan, c) && Path(plan, start, oracle, c.visits) && End(plan, start, oracle, c)
    requires plan[c.current].retries >= 1 && c.current !in c.visits
    ensures Path(plan, start, oracle, c.visits + [c.current])
  {
    hide Tries, Successor, FirstOk;
  }

  /** A visit calls its step until the first call that returns, or as often as it may; it
      has succeeded if the last call returned, and goes on accordingly. */
  lemma VisitMeaning(plan: Plan, oracle: Oracle, i: nat, id: Id)
    requires id in plan && plan[id].retries >= 1
    ensures var u := Used(plan, oracle, i, id);
      && 1 <= u <= plan[id].retries
      && (forall a :: 1 <= a < u ==> oracle(i, a).Raised?)
      && (oracle(i, u).Raised? ==> u == plan[id].retries)
      && (Tries(plan, oracle, i, id) == if oracle(i, u).Returned? then Some(u) else None)
      && (Successor(plan, oracle, i, id) == if oracle(i, u).Returned? then plan[id].onSuccess else plan[id].onFailure)
  {
  }

  lemma UsedBounds(plan: Plan, oracle: Oracle, i: nat, id: Id)
    requires id in plan && plan[id].retries >= 1
    ensures 1 <= Used(plan, oracle, i, id) <= plan[id].retries
  {
  }

  lemma VisitCalls(plan: Plan, oracle: Oracle, visits: seq<Id>, calls: seq<Id>, id: Id)
    requires id in plan && CallsOk(plan, oracle, visits, calls) && plan[id].retries >= 1 && id !in visits
    ensures CallsOk(plan, oracle, visits + [id], calls + Repeat(id, Used(plan, oracle, |visits|, id)))
  {
    UsedBounds(plan, oracle, |visits|, id);
    hide Used;
    var n := Used(plan, oracle, |visits|, id);
    var v, c := visits + [id], calls + Repeat(id, n);
    assert multiset(calls)[id] == 0 by { assert id !in calls; }
    forall i | 0 <= i < |v| ensures CalledAsUsed(plan, oracle, i, v[i], c) {
      RepeatCount(id, n, v[i]);
      assert i < |visits| ==> CalledAsUsed(plan, oracle, i, visits[i], calls);
    }
  }

  lemma VisitResults(
    plan: Plan, oracle: Oracle, before: map<Id, int>, visits: seq<Id>, r: map<Id, int>, id: Id, r': map<Id, int>)
    requires ResultsOk(plan, oracle, before, visits, r) && id in plan && id !in visits
    requires r' == match Tries(plan, oracle, |visits|, id)
      case Some(k) => r[id := oracle(|visits|, k).value]
      case None => r
    ensures ResultsOk(plan, oracle, before, visits + [id], r')
  {
    hide Tries;
    var v := visits + [id];
    forall i | 0 <= i < |v| ensures ResultKept(plan, oracle, i, v[i], r') {
      assert i < |visits| ==> ResultKept(plan, oracle, i, visits[i], r);
    }
    forall x: Id | x in r' ensures Succeeded(plan, oracle, v, x) || (x in before && r'[x] == before[x]) {
      SucceededMore(plan, oracle, visits, id, x);
    }
  }

  lemma SucceededMore(plan: Plan, oracle: Oracle, visits: seq<Id>, id: Id, x: Id)
    requires id in plan
    ensures Succeeded(plan, oracle, visits, x) ==> Succeeded(plan, oracle, visits + [id], x)
    ensures Tries(plan, oracle, |visits|, id).Some? ==> Succeeded(plan, oracle, visits + [id], id)
  {
    hide Tries;
    var v := visits + [id];
    assert v[|visits|] == id;
    if Succeeded(plan, oracle, visits, x) {
      var i :| 0 <= i < |visits| && visits[i] == x && x in plan && Tries(plan, oracle, i, x).Some?;
      assert v[i] == x;
    }
  }

  /** On a grounded plan the walk is at a step it has not visited, with attempts. */
  lemma FreshStep(plan: Plan, start: Id, c: Config)
    requires Grounded(plan, start) && OnWalk(plan, start, c) && AtStep(plan, c)
    ensures plan[c.current].retries >= 1 && c.current !in c.visits
  {
    var w := c.visits + [c.current];
    assert IsWalk(plan, start, w);
    assert plan[w[|w| - 1]].retries >= 1 && Distinct(w);
    forall i | 0 <= i < |c.visits| ensures c.visits[i] != c.current { assert w[i] != w[|c.visits|]; }
  }

  lemma NextFacts(plan: Plan, start: Id, oracle: Oracle, results: map<Id, int>, c: Config)
    requires Grounded(plan, start) && OnWalk(plan, start, c) && Facts(plan, start, oracle, results, c)
    ensures Facts(plan, start, oracle, results, Next(plan, oracle, c))
  {
    hide Path, CallsOk, ResultsOk, DlqOk;
    if AtStep(plan, c) {
      FreshStep(plan, start, c);
      VisitFacts(plan, start, oracle, results, c);
    }
    hide Grounded, OnWalk, Successor, Visit, FailedForGood;
  }

  lemma VisitFacts(plan: Plan, start: Id, oracle: Oracle, results: map<Id, int>, c: Config)
    requires AtStep(plan, c) && Facts(plan, start, oracle, results, c)
    requires plan[c.current].retries >= 1 && c.current !in c.visits
    ensures Facts(plan, start, oracle, results, Visit(plan, oracle, c))
  {
    var d := Visit(plan, oracle, c);
    VisitShape(plan, oracle, c);
    hide Visit, Path, CallsOk, ResultsOk, Used, Tries;
    VisitPath(plan, start, oracle, c);
    VisitCalls(plan, oracle, c.visits, c.calls, c.current);
    VisitResults(plan, oracle, results, c.visits, c.results, c.current, d.results);
  }

  lemma StartFacts(plan: Plan, start: Id, oracle: Oracle, results: map<Id, int>)
    ensures Facts(plan, start, oracle, results, Begin(start, results))
  {
  }

  lemma {:induction false} AfterFacts(plan: Plan, start: Id, oracle: Oracle, results: map<Id, int>, n: nat)
    requires Grounded(plan, start)
    ensures Facts(plan, start, oracle, results, After(plan, oracle, Begin(start, results), n))
  {
    hide Next, Grounded, OnWalk, Facts;
    if n == 0 {
      StartFacts(plan, start, oracle, results);
    } else {
      AfterOnWalk(plan, start, oracle, results, n - 1);
      AfterFacts(plan, start, oracle, results, n - 1);
      NextFacts(plan, start, oracle, results, After(plan, oracle, Begin(start, results), n - 1));
    }
  }

  /** Every run on a grounded plan returns; by then each step was visited at most
      once, along the edges its outcomes select, and called at most `retries` times;
      the results are those passed in, overridden by exactly the visited steps that
      succeeded; and the DLQ got one event if the last step failed for good with no
      on_failure edge, and none otherwise. */
  lemma RunReturns(plan: Plan, start: Id, oracle: Oracle, results: map<Id, int>)
    requires Grounded(plan, start)
    ensures var c := After(plan, oracle, Begin(start, results), |plan| + 1);
      && c.halted && |c.visits| <= |plan|
      && Facts(plan, start, oracle, results, c)
  {
    GroundedHalts(plan, start, oracle, results);
    AfterFacts(plan, start, oracle, results, |plan| + 1);
    var c := After(plan, oracle, Begin(start, results), |plan| + 1);
    DistinctFits(c.visits, plan.Keys);
  }

  lemma {:induction false} HaltedStays(plan: Plan, oracle: Oracle, c: Config, n: nat, m: nat)
    requires n <= m && After(plan, oracle, c, n).halted
    ensures After(plan, oracle, c, m) == After(plan, oracle, c, n)
    decreases m
  {
    if n == m {
    } else {
      HaltedStays(plan, oracle, c, n, m - 1);
    }
  }

  lemma RepeatMore(id: Id, n: nat)
    ensures if n == 0 then Repeat(id, n) == [] else Repeat(id, n) == Repeat(id, n - 1) + [id]
  {
  }

  lemma FirstOkStep(oracle: Oracle, visit: nat, a: nat, max: int)
    requires a <= max
    ensures FirstOk(oracle, visit, a, max) ==
      if oracle(visit, a).Returned? then Some(a) else FirstOk(oracle, visit, a + 1, max)
    ensures FirstOk(oracle, visit, max + 1, max) == None
  {
  }

  lemma StepReady(plan: Plan, start: Id, oracle: Oracle, results: map<Id, int>, n: nat, c: Config)
    requires Grounded(plan, start) && c == After(plan, oracle, Begin(start, results), n) && AtStep(plan, c)
    ensures n < |plan| && plan[c.current].retries >= 1
  {
    AfterOnWalk(plan, start, oracle, results, n);
    var w := c.visits + [c.current];
    assert IsWalk(plan, start, w);
    assert plan[w[|w| - 1]].retries >= 1;
    DistinctFits(w, plan.Keys);
  }

  lemma WalkEnds(plan: Plan, start: Id, oracle: Oracle, results: map<Id, int>, n: nat, c: Config)
    requires n <= |plan| && c == After(plan, oracle, Begin(start, results), n) && !AtStep(plan, c)
    ensures c.(halted := true) == After(plan, oracle, Begin(start, results), |plan| + 1)
  {
    assert After(plan, oracle, Begin(start, results), n + 1) == c.(halted := true);
    HaltedStays(plan, oracle, Begin(start, results), n + 1, |plan| + 1);
  }

  class ExecutionContext {
    var results: map<Id, int>
    // what the world saw of the run: steps entered, `_run_step` calls, DLQ events
    var visits: seq<Id>
    var calls: seq<Id>
    var dlq: seq<Id>

    constructor ()
      ensures results == map[] && visits == calls == dlq == []
    {
      results, visits, calls, dlq := map[], [], [], [];
    }

    ghost function View(current: Id, halted: bool): Config
      reads this
    {
      Config(current, halted, visits, calls, results, dlq)
    }

    /** The walk.  Being grounded is what the source needs of its plan to return
        at all (HaltsIff).  `last` is the loop variable at the return. */
    method RunPlan(plan: Plan, start: Id, oracle: Oracle) returns (r: map<Id, int>, ghost last: Id)
      requires Grounded(plan, start)
      requires visits == calls == dlq == []
      modifies this
      ensures r == results
      ensures View(last, true) == After(plan, oracle, Begin(start, old(results)), |plan| + 1)
      ensures Facts(plan, start, oracle, old(results), View(last, true))
    {
      hide Visit, Grounded, Facts;
      var current := start;
      ghost var n := 0;
      var done := false;
      while current != NoStep && !done
        invariant View(current, done) == After(plan, oracle, Begin(start, old(results)), n)
        invariant n <= |plan|
        decreases |plan| - n, !done
      {
        if current !in plan {
          break;
        }
        StepReady(plan, start, oracle, old(results), n, View(current, done));
        current, done := RunStep(plan, current, oracle);
        n := n + 1;
      }
      r, last := results, current;
      WalkEnds(plan, start, oracle, old(results), n, View(current, done));
      RunReturns(plan, start, oracle, old(results));
    }

    /** One step with its retries; `done` when the method returns from inside. */
    method RunStep(plan: Plan, id: Id, oracle: Oracle) returns (current: Id, done: bool)
      requires id in plan && id != NoStep && plan[id].retries >= 1
      modifies this
      ensures View(current, done) == Visit(plan, oracle, old(View(id, false)))
    {
      hide FirstOk, Repeat;
      var step := plan[id];
      var attempt := 0;
      assert calls == calls + Repeat(id, 0) by { RepeatMore(id, 0); }
      var visit := |visits|;
      current, done := id, false;
      visits := visits + [id];
      while attempt < step.retries
        invariant 0 <= attempt <= step.retries && !done && current == id
        invariant visits == old(visits) + [id] && results == old(results) && dlq == old(dlq)
        invariant calls == old(calls) + Repeat(id, attempt)
        invariant attempt < step.retries
        invariant FirstOk(oracle, visit, 1, step.retries) == FirstOk(oracle, visit, attempt + 1, step.retries)
        decreases step.retries - attempt
      {
        attempt := attempt + 1;
        calls := calls + [id];
        RepeatMore(id, attempt);
        FirstOkStep(oracle, visit, attempt, step.retries);
        var outcome := oracle(visit, attempt);
        if outcome.Returned? {
          results := results[id := outcome.value];
          current := step.onSuccess;
          return;
        }
        if attempt < step.retries {
          continue;
        }
        if step.onFailure != NoStep {
          current := step.onFailure;
          return;
        }
        dlq := dlq + [id];
        done := true;
        return;
      }
      assert false;
    }
  }
}
