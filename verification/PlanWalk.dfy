// The plan walker `PlanExecutor.run_plan`: a walk over a graph of steps along
// on_success and on_failure edges, with retries at each step.
//
// A missing edge and an empty step id are both falsy in the source; both are NoStep.
// What `_run_step` does is an oracle of the visit number and the attempt number.
module PlanWalk {
  import opened Common

  datatype Id = NoStep | Named(name: string)

  datatype Step = Step(retries: int, onSuccess: Id, onFailure: Id)
  type Plan = map<Id, Step>

  datatype Outcome = Returned(value: int) | Raised
  type Oracle = (nat, nat) -> Outcome

  /** Where the walk stands: the loop variable, whether the method returned, the
      steps visited, the `_run_step` calls made, the results and the DLQ events. */
  datatype Config = Config(
    current: Id, halted: bool, visits: seq<Id>, calls: seq<Id>, results: map<Id, int>, dlq: seq<Id>)

  function Begin(start: Id, results: map<Id, int>): Config {
    Config(start, false, [], [], results, [])
  }

  /** The first attempt from a on, and at most max, that returns. */
  function FirstOk(oracle: Oracle, visit: nat, a: nat, max: int): (k: Option<nat>)
    ensures k.Some? ==> a <= k.value <= max && oracle(visit, k.value).Returned?
                        && forall j :: a <= j < k.value ==> oracle(visit, j).Raised?
    ensures k.None? ==> forall j :: a <= j <= max ==> oracle(visit, j).Raised?
    decreases max - a
  {
    if a > max then None
    else if oracle(visit, a).Returned? then Some(a)
    else FirstOk(oracle, visit, a + 1, max)
  }

  predicate AtStep(plan: Plan, c: Config) {
    !c.halted && c.current != NoStep && c.current in plan
  }

  /** One iteration of the outer loop at an existing step.  With retries <= 0 the
      inner loop does not run and the walk stays where it is. */
  function Visit(plan: Plan, oracle: Oracle, c: Config): Config
    requires AtStep(plan, c)
  {
    var step := plan[c.current];
    var d := c.(visits := c.visits + [c.current]);
    if step.retries <= 0 then d else
    match FirstOk(oracle, |c.visits|, 1, step.retries)
    case Some(k) =>
      d.(calls := c.calls + Repeat(c.current, k),
         results := c.results[c.current := oracle(|c.visits|, k).value],
         current := step.onSuccess)
    case None =>
      var e := d.(calls := c.calls + Repeat(c.current, step.retries));
      if step.onFailure != NoStep then e.(current := step.onFailure)
      else e.(halted := true, dlq := c.dlq + [c.current])
  }

  function Next(plan: Plan, oracle: Oracle, c: Config): Config {
    if c.halted then c
    else if !AtStep(plan, c) then c.(halted := true)
    else Visit(plan, oracle, c)
  }

  function After(plan: Plan, oracle: Oracle, c: Config, n: nat): Config {
    if n == 0 then c else Next(plan, oracle, After(plan, oracle, c, n - 1))
  }

  ghost predicate Halts(plan: Plan, start: Id, oracle: Oracle) {
    exists n: nat :: After(plan, oracle, Begin(start, map[]), n).halted
  }

  // ------------------------------------------------------------ which plans terminate

  ghost predicate Edge(plan: Plan, a: Id, b: Id) {
    a in plan && plan[a].retries >= 1 && b != NoStep && (b == plan[a].onSuccess || b == plan[a].onFailure)
  }

  ghost predicate IsWalk(plan: Plan, start: Id, w: seq<Id>) {
    && |w| >= 1 && w[0] == start
    && (forall i :: 0 <= i < |w| ==> w[i] in plan && w[i] != NoStep)
    && (forall i, j :: 0 <= i < |w| && j == i + 1 && j < |w| ==> Edge(plan, w[i], w[j]))
  }

  /** No walk from the start reaches a step without attempts, or a step twice. */
  ghost predicate Grounded(plan: Plan, start: Id) {
    forall w: seq<Id> :: IsWalk(plan, start, w) ==> plan[w[|w| - 1]].retries >= 1 && Distinct(w)
  }

  /** The steps visited, then the current one, form a walk from the start. */
  ghost predicate OnWalk(plan: Plan, start: Id, c: Config) {
    && (AtStep(plan, c) ==> IsWalk(plan, start, c.visits + [c.current]))
    && (c.visits != [] ==> IsWalk(plan, start, c.visits))
    && (!c.halted && c.visits == [] ==> c.current == start)
  }

  lemma NextOnWalk(plan: Plan, start: Id, oracle: Oracle, c: Config)
    requires Grounded(plan, start) && OnWalk(plan, start, c)
    ensures OnWalk(plan, start, Next(plan, oracle, c))
    ensures AtStep(plan, Next(plan, oracle, c)) ==> AtStep(plan, c) && |Next(plan, oracle, c).visits| == |c.visits| + 1
  {
    var d := Next(plan, oracle, c);
    if AtStep(plan, c) {
      var w := c.visits + [c.current];
      assert plan[w[|w| - 1]].retries >= 1;
      if AtStep(plan, d) {
        assert Edge(plan, c.current, d.current);
      }
    }
  }

  lemma StartOnWalk(plan: Plan, start: Id, results: map<Id, int>)
    ensures OnWalk(plan, start, Begin(start, results))
  {
  }

  lemma {:induction false} AfterOnWalk(plan: Plan, start: Id, oracle: Oracle, results: map<Id, int>, n: nat)
    requires Grounded(plan, start)
    ensures var c := After(plan, oracle, Begin(start, results), n);
      OnWalk(plan, start, c) && (AtStep(plan, c) ==> |c.visits| == n)
  {
    hide Next, Grounded, OnWalk;
    if n == 0 {
      StartOnWalk(plan, start, results);
    } else {
      AfterOnWalk(plan, start, oracle, results, n - 1);
      NextOnWalk(plan, start, oracle, After(plan, oracle, Begin(start, results), n - 1));
    }
  }

  lemma {:induction false} DistinctFits(w: seq<Id>, keys: set<Id>)
    requires Distinct(w) && forall i :: 0 <= i < |w| ==> w[i] in keys
    ensures |w| <= |keys|
    decreases |w|
  {
    if w == [] {
    } else {
      var last := w[|w| - 1];
      DistinctFits(w[..|w| - 1], keys - {last});
      assert |keys - {last}| == |keys| - 1;
    }
  }

  /** A grounded plan makes the walk return after at most |plan| visits. */
  lemma GroundedHalts(plan: Plan, start: Id, oracle: Oracle, results: map<Id, int>)
    requires Grounded(plan, start)
    ensures After(plan, oracle, Begin(start, results), |plan| + 1).halted
  {
    var c := After(plan, oracle, Begin(start, results), |plan|);
    AfterOnWalk(plan, start, oracle, results, |plan|);
    if AtStep(plan, c) {
      DistinctFits(c.visits + [c.current], plan.Keys);
    }
  }

  // --- the other direction: a walk that reaches a bad step can be followed for ever

  /** Position on the walk w after n visits: forward to q - 1, then back to p. */
  function Pos(p: nat, q: nat, n: nat): (i: nat)
    requires p < q
    ensures i < q
  {
    if n == 0 then 0 else
    var i := Pos(p, q, n - 1);
    if i + 1 < q then i + 1 else p
  }

  /** Succeeds at once where on_success leads along the walk, and never elsewhere. */
  function Follow(plan: Plan, w: seq<Id>, p: nat, q: nat): Oracle
    requires p < q <= |w|
  {
    (visit: nat, attempt: nat) =>
      var a, b := w[Pos(p, q, visit)], w[Pos(p, q, visit + 1)];
      if a in plan && plan[a].onSuccess == b then Returned(0) else Raised
  }

  ghost predicate Endless(plan: Plan, start: Id, w: seq<Id>, p: nat, q: nat) {
    && p < q <= |w| && IsWalk(plan, start, w)
    && (if q < |w| then w[p] == w[q] else p == q - 1 && plan[w[p]].retries <= 0)
  }

  /** Where the next visit leads when every attempt of this one goes the same way. */
  lemma FollowStep(plan: Plan, oracle: Oracle, c: Config, b: Id)
    requires AtStep(plan, c)
    requires Edge(plan, c.current, b) || (plan[c.current].retries <= 0 && b == c.current)
    requires forall a: nat :: oracle(|c.visits|, a) == if plan[c.current].onSuccess == b then Returned(0) else Raised
    ensures var d := Next(plan, oracle, c);
      !d.halted && d.current == b && |d.visits| == |c.visits| + 1
  {
    assert oracle(|c.visits|, 1) == if plan[c.current].onSuccess == b then Returned(0) else Raised;
    var k := FirstOk(oracle, |c.visits|, 1, plan[c.current].retries);
  }

  lemma FollowEdge(plan: Plan, start: Id, w: seq<Id>, p: nat, q: nat, i: nat)
    requires Endless(plan, start, w, p, q) && i < q
    ensures var j := if i + 1 < q then i + 1 else p;
      && w[i] in plan && w[i] != NoStep
      && (Edge(plan, w[i], w[j]) || (plan[w[i]].retries <= 0 && w[j] == w[i]))
  {
    assert i + 1 < |w| ==> Edge(plan, w[i], w[i + 1]);
  }

  /** The walk has been followed for n visits. */
  ghost predicate Following(w: seq<Id>, p: nat, q: nat, n: nat, c: Config)
  {
    p < q <= |w| && !c.halted && |c.visits| == n && c.current == w[Pos(p, q, n)]
  }

  lemma FollowOn(plan: Plan, start: Id, w: seq<Id>, p: nat, q: nat, n: nat, c: Config)
    requires Endless(plan, start, w, p, q) && Following(w, p, q, n, c)
    ensures Following(w, p, q, n + 1, Next(plan, Follow(plan, w, p, q), c))
  {
    var oracle := Follow(plan, w, p, q);
    var b := w[Pos(p, q, n + 1)];
    FollowEdge(plan, start, w, p, q, Pos(p, q, n));
    forall a: nat ensures oracle(|c.visits|, a) == if plan[c.current].onSuccess == b then Returned(0) else Raised {
    }
    FollowStep(plan, oracle, c, b);
  }

  lemma FollowingStart(plan: Plan, start: Id, w: seq<Id>, p: nat, q: nat)
    requires Endless(plan, start, w, p, q)
    ensures Following(w, p, q, 0, Begin(start, map[]))
  {
  }

  lemma {:induction false} FollowsForEver(plan: Plan, start: Id, w: seq<Id>, p: nat, q: nat, n: nat)
    requires p < q <= |w| && Endless(plan, start, w, p, q)
    ensures Following(w, p, q, n, After(plan, Follow(plan, w, p, q), Begin(start, map[]), n))
  {
    hide Endless, Next, Follow, Following;
    if n == 0 {
      assert Following(w, p, q, 0, Begin(start, map[])) by { FollowingStart(plan, start, w, p, q); }
    } else {
      FollowsForEver(plan, start, w, p, q, n - 1);
      FollowOn(plan, start, w, p, q, n - 1, After(plan, Follow(plan, w, p, q), Begin(start, map[]), n - 1));
    }
  }

  lemma NotGroundedLoops(plan: Plan, start: Id)
    requires !Grounded(plan, start)
    ensures exists oracle: Oracle :: !Halts(plan, start, oracle)
  {
    var w: seq<Id> :| IsWalk(plan, start, w) && !(plan[w[|w| - 1]].retries >= 1 && Distinct(w));
    var p, q := |w| - 1, |w|;
    if !Distinct(w) {
      p, q :| 0 <= p < q < |w| && w[p] == w[q];
    }
    assert Endless(plan, start, w, p, q);
    forall n: nat ensures !After(plan, Follow(plan, w, p, q), Begin(start, map[]), n).halted {
      FollowsForEver(plan, start, w, p, q, n);
    }
    assert !Halts(plan, start, Follow(plan, w, p, q));
  }

  /** `run_plan` returns whatever its steps do exactly when every step reachable from
      the start has at least one attempt and no walk comes back to a step. */
  lemma HaltsIff(plan: Plan, start: Id)
    ensures (forall oracle: Oracle :: Halts(plan, start, oracle)) <==> Grounded(plan, start)
  {
    if Grounded(plan, start) {
      forall oracle: Oracle ensures Halts(plan, start, oracle) {
        GroundedHalts(plan, start, oracle, map[]);
      }
    } else {
      NotGroundedLoops(plan, start);
    }
  }
}
