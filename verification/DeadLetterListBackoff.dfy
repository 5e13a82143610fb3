// Exponential backoff of the in-memory dead-letter queue.  A retry time is computed
// from the clock reading of the pass, not from the moment the insert was made, so
// passes are spaced by the full delay while inserts may come earlier by as much
// as the previous insert lagged behind the start of its pass.
module DeadLetterListBackoff {
  import opened Common
  import opened DeadLetterList
  import opened DeadLetterListProofs
  import opened DeadLetterListRuns

  // ------------------------------------------------------------------- sums of delays

  /** Delay(1) + ... + Delay(n). */
  ghost function TotalDelay(cfg: Config, n: nat): real {
    if n == 0 then 0.0 else TotalDelay(cfg, n - 1) + Delay(cfg, n)
  }

  lemma {:induction false} SpacedTotal(own: seq<Try>, cfg: Config, n: nat)
    requires Spaced(own, cfg) && n < |own|
    ensures own[n].passStart - own[0].passStart >= TotalDelay(cfg, n)
  {
    if n == 0 {
    } else {
      SpacedTotal(own, cfg, n - 1);
    }
  }

  lemma Doubles(base: real, n: nat)
    ensures Doubled(base, n + 1) == 2.0 * Doubled(base, n) && Doubled(base, 0) == base
    ensures base >= 0.0 ==> Doubled(base, n) >= 0.0
  {
    Regroup(base, Pow2(n));
  }

  lemma Regroup(b: real, p: real)
    ensures b * (2.0 * p) == 2.0 * (b * p) && b * 1.0 == b && b * (p - 1.0) == b * p - b
    ensures b >= 0.0 && p >= 1.0 ==> b * p >= 0.0
  {
  }

  lemma {:induction false} TotalUncapped(cfg: Config, n: nat)
    requires cfg.baseDelay >= 0.0
    requires n > 0 ==> Doubled(cfg.baseDelay, n - 1) <= cfg.maxDelay
    ensures TotalDelay(cfg, n) == Doubled(cfg.baseDelay, n) - cfg.baseDelay
  {
    hide Doubled;
    Doubles(cfg.baseDelay, if n == 0 then 0 else n - 1);
    if n == 0 {
    } else {
      if n > 1 { Doubles(cfg.baseDelay, n - 2); }
      TotalUncapped(cfg, n - 1);
    }
  }

  // ----------------------------------------------------------------------- every run

  /** Between the starts of the passes that made the first and the m-th insert of any
      entry lies at least the sum of the capped exponential delays, which is
      base * (2^(m-1) - 1) below the cap. */
  lemma RunBacksOff(states: seq<State>, events: seq<Event>, cfg: Config, r: Ref, m: nat)
    requires IsRun(states, events, cfg) && DistinctTs(states[|events|].heap)
    requires r < |states[|events|].heap| && 1 <= m <= |TriesOf(states[|events|].tries, r)|
    ensures var own := TriesOf(states[|events|].tries, r);
      && own[m - 1].passStart - own[0].passStart >= TotalDelay(cfg, m - 1)
      && (cfg.baseDelay >= 0.0 && (m > 1 ==> cfg.baseDelay * Pow2(m - 2) <= cfg.maxDelay) ==>
            own[m - 1].passStart - own[0].passStart >= cfg.baseDelay * (Pow2(m - 1) - 1.0))
  {
    hide Pass, Delay;
    DistinctRunInv(states, events, cfg, |events|);
    assert History(states[|events|], cfg, r);
    SpacedTotal(TriesOf(states[|events|].tries, r), cfg, m - 1);
    if cfg.baseDelay >= 0.0 && (m > 1 ==> cfg.baseDelay * Pow2(m - 2) <= cfg.maxDelay) {
      TotalUncapped(cfg, m - 1);
      Regroup(cfg.baseDelay, Pow2(m - 1));
    }
  }

  /** An insert of any entry comes after the previous one by the delay less the time
      by which that one lagged behind its pass, and after the first by the sum of the
      delays less the lag of the first: lags of inserts between do not add up. */
  lemma RunInsertsBackOff(states: seq<State>, events: seq<Event>, cfg: Config, r: Ref, k: nat)
    requires IsRun(states, events, cfg) && DistinctTs(states[|events|].heap)
    requires r < |states[|events|].heap| && 1 <= k < |TriesOf(states[|events|].tries, r)|
    ensures var own := TriesOf(states[|events|].tries, r);
      && own[k].at - own[k - 1].at >= Delay(cfg, k) - (own[k - 1].at - own[k - 1].passStart)
      && own[k].at - own[0].at >= TotalDelay(cfg, k) - (own[0].at - own[0].passStart)
  {
    hide Pass, Delay;
    DistinctRunInv(states, events, cfg, |events|);
    assert History(states[|events|], cfg, r);
    SpacedTotal(TriesOf(states[|events|].tries, r), cfg, k);
  }

  /** On every run a queued entry with m failures waits, from the start of the pass that
      made its last insert, exactly base * 2^(m-1), or the maximal delay if that is less;
      so never longer than the maximal delay from now. */
  lemma RunWaits(states: seq<State>, events: seq<Event>, cfg: Config, r: Ref)
    requires IsRun(states, events, cfg) && DistinctTs(states[|events|].heap)
    requires r in states[|events|].queue && r < |states[|events|].heap| && states[|events|].heap[r].attempts > 0
    ensures var s := states[|events|];
      var own, m := TriesOf(s.tries, r), s.heap[r].attempts;
      && |own| == m
      && s.heap[r].nextAttempt - own[m - 1].passStart
         == (if cfg.baseDelay * Pow2(m - 1) <= cfg.maxDelay then cfg.baseDelay * Pow2(m - 1) else cfg.maxDelay)
      && own[m - 1].passStart <= s.clock
      && s.heap[r].nextAttempt <= s.clock + cfg.maxDelay
  {
    var s := states[|events|];
    DistinctRunInv(states, events, cfg, |events|);
    assert History(s, cfg, r);
    Members(s, r);
    LastTry(s, cfg, r);
  }

  lemma LastTry(s: State, cfg: Config, r: Ref)
    requires Inv(s, cfg) && r < |s.heap| && TriesOf(s.tries, r) != []
    ensures var own := TriesOf(s.tries, r); own[|own| - 1].passStart <= own[|own| - 1].at <= s.clock
  {
    var own := TriesOf(s.tries, r);
    assert History(s, cfg, r) && Spaced(own, cfg);
    TriesAmong(s.tries, r, |own| - 1);
  }

  lemma {:induction false} TriesAmong(tries: seq<Try>, r: Ref, k: nat)
    requires k < |TriesOf(tries, r)|
    ensures TriesOf(tries, r)[k] in tries
    decreases |tries|
  {
    if tries == [] {
    } else {
      var front := tries[..|tries| - 1];
      if k < |TriesOf(front, r)| { TriesAmong(front, r, k); }
    }
  }

  lemma {:induction false} PassStarts(s: State, script: seq<Reply>, now: real, cfg: Config, k: nat)
    requires Closed(s) && k <= |s.queue| && |script| == |s.queue|
    requires StartedBy(s.tries, now)
    ensures StartedBy(PassTo(s, script, now, cfg, k).tries, now)
  {
    hide Attempt;
    if k == 0 {
    } else {
      PassStarts(s, script, now, cfg, k - 1);
      var t := PassTo(s, script, now, cfg, k - 1);
      AttemptTries(t, s.queue[k - 1], now, cfg, script[k - 1]);
    }
  }

  /** All these inserts belong to passes that had started by then. */
  ghost predicate StartedBy(tries: seq<Try>, now: real) {
    forall i :: 0 <= i < |tries| ==> tries[i].passStart <= now
  }

  lemma {:induction false} RunPassStarts(states: seq<State>, events: seq<Event>, cfg: Config, n: nat)
    requires IsRun(states, events, cfg) && n <= |events|
    ensures StartedBy(states[n].tries, states[n].clock)
  {
    hide Pass;
    if n == 0 {
    } else {
      RunPassStarts(states, events, cfg, n - 1);
      assert Step(states[n - 1], events[n - 1], cfg, states[n]);
      StepPassStarts(states[n - 1], events[n - 1], cfg, states[n]);
    }
  }

  lemma StepPassStarts(s: State, e: Event, cfg: Config, t: State)
    requires Step(s, e, cfg, t) && StartedBy(s.tries, s.clock)
    ensures StartedBy(t.tries, t.clock) && (e.Tick? ==> StartedBy(t.tries, e.now))
  {
    hide PassTo;
    match e
    case Publish(a) =>
    case Tick(now, script) =>
      PassStarts(s, script, now, cfg, |script|);
      ClockAfter(s, script, now, cfg, |script|);
  }

  /** After every pass, whatever it did, every entry is due again by the maximal delay
      after its start. */
  lemma DueAgain(states: seq<State>, events: seq<Event>, cfg: Config, r: Ref)
    requires IsRun(states, events, cfg) && DistinctTs(states[|events|].heap)
    requires events != [] && events[|events| - 1].Tick?
    requires r in states[|events|].queue && r < |states[|events|].heap| && states[|events|].heap[r].attempts > 0
    ensures states[|events|].heap[r].nextAttempt <= events[|events| - 1].now + cfg.maxDelay
  {
    var n := |events|;
    var own := TriesOf(states[n].tries, r);
    RunWaits(states, events, cfg, r);
    RunPassStarts(states, events, cfg, n - 1);
    assert Step(states[n - 1], events[n - 1], cfg, states[n]);
    StepPassStarts(states[n - 1], events[n - 1], cfg, states[n]);
    TriesAmong(states[n].tries, r, |own| - 1);
  }

  // ------------------------------------------------- when the next insert is full spaced

  /** A pass makes exactly one insert for each due entry, when the earlier inserts of
      the pass are over. */
  lemma {:induction false} PassTries(s: State, script: seq<Reply>, now: real, cfg: Config, k: nat, i: nat)
    requires Accounted(s) && Closed(s) && k <= |s.queue| && |script| == |s.queue| && !Hazard(s, now, cfg)
    requires i < |s.queue| && Due(s, s.queue[i], now)
    ensures var r := s.queue[i];
      TriesOf(PassTo(s, script, now, cfg, k).tries, r)
      == TriesOf(s.tries, r) + if i < k then [Try(r, now, PassTo(s, script, now, cfg, i).clock)] else []
    decreases k
  {
    hide Attempt, Shape, HazardAt;
    AccountedFacts(s);
    if k == 0 {
    } else {
      PassTries(s, script, now, cfg, k - 1, i);
      PassShape(s, script, now, cfg, k - 1);
      var t := PassTo(s, script, now, cfg, k - 1);
      PassTriesStep(s, script, now, cfg, k - 1, i, t, PassTo(s, script, now, cfg, i).clock);
    }
  }

  lemma PassTriesStep(s: State, script: seq<Reply>, now: real, cfg: Config, k: nat, i: nat, t: State, begun: real)
    requires Closed(s) && Distinct(s.queue) && k < |s.queue| && |script| == |s.queue|
    requires Shape(s, script, now, cfg, k, t)
    requires i < |s.queue| && Due(s, s.queue[i], now) && (k == i ==> begun == t.clock)
    requires TriesOf(t.tries, s.queue[i])
          == TriesOf(s.tries, s.queue[i]) + if i < k then [Try(s.queue[i], now, begun)] else []
    ensures TriesOf(Attempt(t, s.queue[k], now, cfg, script[k]).tries, s.queue[i])
         == TriesOf(s.tries, s.queue[i]) + if i < k + 1 then [Try(s.queue[i], now, begun)] else []
  {
    hide Attempt, TriesOf;
    StillDue(s, script, now, cfg, k, t);
    TriesStep(t, s.queue[k], s.queue[i], now, cfg, script[k]);
  }

  lemma TriesStep(t: State, x: Ref, r: Ref, now: real, cfg: Config, reply: Reply)
    requires Closed(t) && x < |t.heap|
    ensures TriesOf(Attempt(t, x, now, cfg, reply).tries, r)
         == TriesOf(t.tries, r) + if x == r && Due(t, x, now) then [Try(r, now, t.clock)] else []
  {
    hide Attempt;
    AttemptTries(t, x, now, cfg, reply);
    TriesAppend(t.tries, Try(x, now, t.clock), r);
    assert t.tries + [] == t.tries;
  }

  lemma StillDue(s: State, script: seq<Reply>, now: real, cfg: Config, k: nat, t: State)
    requires Closed(s) && k < |s.queue| && |script| == |s.queue| && Shape(s, script, now, cfg, k, t)
    ensures s.queue[k] < |t.heap| && (Due(t, s.queue[k], now) <==> Due(s, s.queue[k], now))
  {
  }

  lemma {:induction false} InstantClock(s: State, now: real, cfg: Config, k: nat)
    requires Closed(s) && k <= |s.queue|
    ensures PassTo(s, AllFail(|s.queue|), now, cfg, k).clock == now
  {
    hide Attempt;
    if k == 0 {
    } else {
      InstantClock(s, now, cfg, k - 1);
      var script := AllFail(|s.queue|);
      AttemptTries(PassTo(s, script, now, cfg, k - 1), s.queue[k - 1], now, cfg, script[k - 1]);
    }
  }

  /** The pass inserts r once more, not before `from`. */
  ghost predicate InsertsFrom(s: State, script: seq<Reply>, now: real, cfg: Config, r: Ref, from: real)
    requires Closed(s) && |script| == |s.queue|
  {
    var before, after := TriesOf(s.tries, r), TriesOf(Pass(s, script, now, cfg).tries, r);
    |after| == |before| + 1 && after[|before|].at >= from
  }

  /** Whatever the database does and whenever the next pass that finds r due starts. */
  ghost predicate AlwaysFrom(s: State, cfg: Config, r: Ref, from: real)
    requires Closed(s) && r < |s.heap|
  {
    forall now: real, script: seq<Reply> | s.clock <= now && |script| == |s.queue| && Due(s, r, now) ::
      InsertsFrom(s, script, now, cfg, r, from)
  }

  /** The next insert of an entry that has failed comes a full delay after the last
      one, whatever happens, if and only if that one was made when its pass started
      or the full delay is over already. */
  lemma InsertsSpacedIff(s: State, cfg: Config, i: nat)
    requires Inv(s, cfg) && Closed(s) && DistinctTs(s.heap)
    requires i < |s.queue| && s.heap[s.queue[i]].attempts > 0
    ensures |TriesOf(s.tries, s.queue[i])| == s.heap[s.queue[i]].attempts
    ensures var r := s.queue[i];
      var last := TriesOf(s.tries, r)[s.heap[r].attempts - 1];
      var full := last.at + Delay(cfg, s.heap[r].attempts);
      AlwaysFrom(s, cfg, r, full) <==> last.at == last.passStart || s.clock >= full
  {
    hide Pass, Delay;
    var r := s.queue[i];
    assert History(s, cfg, r);
    Members(s, r);
    var m := s.heap[r].attempts;
    var last := TriesOf(s.tries, r)[m - 1];
    var full := last.at + Delay(cfg, m);
    if last.at == last.passStart || s.clock >= full {
      forall now: real, script: seq<Reply> | s.clock <= now && |script| == |s.queue| && Due(s, r, now)
        ensures InsertsFrom(s, script, now, cfg, r, full)
      {
        NextInsert(s, script, now, cfg, i);
      }
    } else {
      var now := MaxReal(s.clock, s.heap[r].nextAttempt);
      var script := AllFail(|s.queue|);
      NextInsert(s, script, now, cfg, i);
      InstantClock(s, now, cfg, i);
      assert |script| == |s.queue| && Due(s, r, now) && !InsertsFrom(s, script, now, cfg, r, full);
    }
  }

  lemma NextInsert(s: State, script: seq<Reply>, now: real, cfg: Config, i: nat)
    requires Accounted(s) && Closed(s) && DistinctTs(s.heap)
    requires |script| == |s.queue| && i < |s.queue| && Due(s, s.queue[i], now)
    ensures var r := s.queue[i];
      var begun := PassTo(s, script, now, cfg, i).clock;
      && begun >= now
      && TriesOf(Pass(s, script, now, cfg).tries, r) == TriesOf(s.tries, r) + [Try(r, now, begun)]
  {
    DistinctTsIsSafe(s, now, cfg);
    ClockAfter(s, script, now, cfg, i);
    PassTries(s, script, now, cfg, |s.queue|, i);
  }

  // ---------------------------------------------------------------- a slow first insert

  const HOUSE := Config(60.0, 60.0, 5)
  const FIRST := Arrival(10, "down", 1)
  const SECOND := Arrival(11, "down", 2)
  const PAIR := Enqueue(Enqueue(EMPTY, FIRST), SECOND)
  const OUTAGE := [Reply(Raised("timeout"), [], 100.0), Reply(Raised("refused"), [], 0.0)]

  lemma PairFacts()
    ensures PAIR == State([0, 1], [Fresh(FIRST), Fresh(SECOND)], [], [], [], 0.0)
    ensures Closed(PAIR) && DistinctTs(PAIR.heap) && Inv(PAIR, HOUSE)
  {
    var states, events := [EMPTY, Enqueue(EMPTY, FIRST), PAIR], [Publish(FIRST), Publish(SECOND)];
    assert PAIR.heap == [Fresh(FIRST), Fresh(SECOND)];
    DistinctRunInv(states, events, HOUSE, 2);
  }

  /** Both inserts of the first pass fail, and both entries stay in the queue. */
  lemma OutagePass()
    ensures Closed(PAIR) && |PAIR.queue| == 2
    ensures var first := Pass(PAIR, OUTAGE, 0.0, HOUSE);
      && first.queue == [0, 1] && first.clock == 100.0
      && Inv(first, HOUSE) && DistinctTs(first.heap)
      && TriesOf(first.tries, 1) == [Try(1, 0.0, 100.0)]
      && first.heap[1].nextAttempt == 60.0
  {
    PairFacts();
    DistinctTsIsSafe(PAIR, 0.0, HOUSE);
    PassInv(PAIR, OUTAGE, 0.0, HOUSE, 2);
    HeapKeepsTs(PAIR, OUTAGE, 0.0, HOUSE, 2);
    NextInsert(PAIR, OUTAGE, 0.0, HOUSE, 1);
    OutageSteps();
    var first := Pass(PAIR, OUTAGE, 0.0, HOUSE);
    assert Pow2(0) == 1.0 && Delay(HOUSE, 1) == 60.0;
    hide Pass, PassTo, Delay;
    assert History(first, HOUSE, 1);
  }

  lemma OutageSteps()
    ensures Closed(PAIR) && PAIR.queue == [0, 1]
    ensures PassTo(PAIR, OUTAGE, 0.0, HOUSE, 1).clock == 100.0
    ensures var first := Pass(PAIR, OUTAGE, 0.0, HOUSE);
      first.queue == [0, 1] && first.clock == 100.0 && |first.heap| == 2
  {
    assert PAIR.heap == [Fresh(FIRST), Fresh(SECOND)];
    var s0 := PassTo(PAIR, OUTAGE, 0.0, HOUSE, 0);
    var s1 := PassTo(PAIR, OUTAGE, 0.0, HOUSE, 1);
    assert EnqueueAll(s0, []) == s0 && EnqueueAll(s1, []) == s1;
    assert s1.queue == [0, 1] && s1.clock == 100.0;
  }

  /** With a delay of sixty seconds: the insert of the first entry times out after a
      hundred, so that of the second is made, and fails, at a hundred; its next one is
      made five seconds later, since its pass had started at zero. */
  lemma LateInsertExample()
    ensures Closed(PAIR) && |PAIR.queue| == 2
    ensures var first := Pass(PAIR, OUTAGE, 0.0, HOUSE);
      && |first.queue| == 2
      && var second := Pass(first, AllFail(2), 105.0, HOUSE);
      && IsRun([EMPTY, Enqueue(EMPTY, FIRST), PAIR, first, second],
               [Publish(FIRST), Publish(SECOND), Tick(0.0, OUTAGE), Tick(105.0, AllFail(2))], HOUSE)
      && TriesOf(second.tries, 1) == [Try(1, 0.0, 100.0), Try(1, 105.0, 105.0)]
      && Delay(HOUSE, 1) == 60.0
  {
    PairFacts();
    OutagePass();
    var first := Pass(PAIR, OUTAGE, 0.0, HOUSE);
    hide PassTo, Inv;
    NextInsert(first, AllFail(2), 105.0, HOUSE, 1);
    InstantClock(first, 105.0, HOUSE, 1);
    assert Pow2(0) == 1.0;
  }
}
