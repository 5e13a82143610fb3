// Whole runs of the in-memory dead-letter queue: retry passes interleaved with
// appends, starting from an empty list.  Conservation, the attempt cap, draining.
module DeadLetterListRuns {
  import opened Common
  import opened DeadLetterList
  import opened DeadLetterListProofs

  datatype Event = Publish(arrival: Arrival) | Tick(now: real, script: seq<Reply>)

  const EMPTY := State([], [], [], [], [], 0.0)

  ghost predicate Step(s: State, e: Event, cfg: Config, t: State) {
    match e
    case Publish(a) => t == Enqueue(s, a)
    case Tick(now, script) =>
      && Closed(s) && |script| == |s.queue| && s.clock <= now
      && t == Pass(s, script, now, cfg)
  }

  ghost predicate IsRun(states: seq<State>, events: seq<Event>, cfg: Config) {
    && |states| == |events| + 1
    && states[0] == EMPTY
    && forall i :: 0 <= i < |events| ==> Step(states[i], events[i], cfg, states[i + 1])
  }

  // ------------------------------------------------------------ history of one entry

  /** The inserts attempted for r, oldest first. */
  ghost function TriesOf(tries: seq<Try>, r: Ref): seq<Try>
    decreases |tries|
  {
    if tries == [] then [] else
    var last := tries[|tries| - 1];
    TriesOf(tries[..|tries| - 1], r) + if last.ref == r then [last] else []
  }

  lemma TriesAppend(tries: seq<Try>, x: Try, r: Ref)
    ensures TriesOf(tries + [x], r) == TriesOf(tries, r) + if x.ref == r then [x] else []
  {
    assert (tries + [x])[..|tries|] == tries;
  }

  /** The pass of the k-th failure and the pass of the next insert start at least
      Delay(k) apart; an insert begins when its pass starts or later. */
  ghost predicate Spaced(own: seq<Try>, cfg: Config) {
    && (forall k :: 0 <= k < |own| ==> own[k].passStart <= own[k].at)
    && (forall k :: 1 <= k < |own| ==> own[k].passStart - own[k - 1].passStart >= Delay(cfg, k))
  }

  ghost predicate History(s: State, cfg: Config, r: Ref)
    requires r < |s.heap|
  {
    var own, e := TriesOf(s.tries, r), s.heap[r];
    && |own| == e.attempts + (if r in s.stored then 1 else 0)
    && Spaced(own, cfg)
    && (r in s.queue && e.attempts > 0 ==>
          e.nextAttempt == own[e.attempts - 1].passStart + Delay(cfg, e.attempts))
    && (r in s.queue ==> e.attempts < Cap(cfg))
    && (r in s.stored ==> e.attempts < Cap(cfg))
    && (r in s.dropped ==> e.attempts == Cap(cfg))
  }

  ghost predicate TriesKnown(s: State) {
    forall i :: 0 <= i < |s.tries| ==> s.tries[i].ref < |s.heap| && s.tries[i].at <= s.clock
  }

  ghost predicate Inv(s: State, cfg: Config) {
    && Accounted(s)
    && TriesKnown(s)
    && forall r :: 0 <= r < |s.heap| ==> History(s, cfg, r)
  }

  lemma Members(s: State, r: Ref)
    requires Accounted(s) && r < |s.heap|
    ensures r in s.queue ==> r !in s.stored && r !in s.dropped
    ensures r in s.stored ==> r !in s.queue && r !in s.dropped
    ensures r in s.dropped ==> r !in s.queue && r !in s.stored
  {
    assert Count(s, r) == 1;
  }

  lemma {:induction false} TriesNone(tries: seq<Try>, r: Ref)
    requires forall i :: 0 <= i < |tries| ==> tries[i].ref < r
    ensures TriesOf(tries, r) == []
    decreases |tries|
  {
    if tries == [] {
    } else {
      TriesNone(tries[..|tries| - 1], r);
    }
  }

  /** A dict just created has an empty history. */
  lemma NewHistory(s: State, t: State, cfg: Config, r: Ref)
    requires TriesKnown(s) && Accounted(t) && |s.heap| <= r < |t.heap|
    requires t.heap[r].attempts == 0 && r !in t.stored && r !in t.dropped
    requires TriesOf(t.tries, r) == TriesOf(s.tries, r)
    ensures History(t, cfg, r)
  {
    TriesNone(s.tries, r);
  }

  lemma PublishInv(s: State, a: Arrival, cfg: Config)
    requires Inv(s, cfg)
    ensures Inv(Enqueue(s, a), cfg)
  {
    var t := Enqueue(s, a);
    forall r: nat ensures Count(t, r) == if r < |t.heap| then 1 else 0 {
      assert Count(s, r) == if r < |s.heap| then 1 else 0;
    }
    forall r | 0 <= r < |t.heap| ensures History(t, cfg, r) {
      Members(t, r);
      if r < |s.heap| {
        assert History(s, cfg, r);
      } else {
        assert Count(s, r) == 0;
        NewHistory(s, t, cfg, r);
      }
    }
  }

  /** The tried entry keeps its history: one more try, properly spaced. */
  lemma TriedHistory(s: State, p: nat, now: real, cfg: Config, reply: Reply, t: State)
    requires Inv(s, cfg) && Closed(s) && p < |s.queue| && Due(s, s.queue[p], now) && now <= s.clock
    requires InPlace(s, p, now, cfg, reply, t) && Accounted(t)
    ensures History(t, cfg, s.queue[p])
  {
    var r, own := s.queue[p], TriesOf(s.tries, s.queue[p]);
    assert History(s, cfg, r);
    Members(s, r); Members(t, r);
    TriesAppend(s.tries, Try(r, now, s.clock), r);
    SpacedAppend(own, Try(r, now, s.clock), cfg);
    hide TriesOf, Spaced, Delay, Accounted, TriesKnown;
    assert (own + [Try(r, now, s.clock)])[|own|].passStart == now;
    if reply.insert.Stored? {
      assert t.stored[|s.stored|] == r;
    } else if Leaves(s.heap[r], cfg, reply.insert) {
      assert t.dropped[|s.dropped|] == r;
    }
  }

  lemma SpacedAppend(own: seq<Try>, x: Try, cfg: Config)
    requires Spaced(own, cfg) && x.passStart <= x.at
    requires own != [] ==> x.passStart - own[|own| - 1].passStart >= Delay(cfg, |own|)
    ensures Spaced(own + [x], cfg)
  {
    hide Delay;
  }

  lemma OtherHistory(s: State, p: nat, now: real, cfg: Config, reply: Reply, t: State, x: Ref)
    requires Inv(s, cfg) && Closed(s) && p < |s.queue| && x < |s.heap| && x != s.queue[p]
    requires InPlace(s, p, now, cfg, reply, t) && Accounted(t)
    ensures History(t, cfg, x)
  {
    var r := s.queue[p];
    assert History(s, cfg, x);
    TriesAppend(s.tries, Try(r, now, s.clock), x);
    assert x in t.queue ==> x in s.queue;
  }

  lemma AttemptInv(s: State, p: nat, now: real, cfg: Config, reply: Reply, t: State)
    requires Inv(s, cfg) && Closed(s) && p < |s.queue| && Due(s, s.queue[p], now) && now <= s.clock
    requires InPlace(s, p, now, cfg, reply, t) && Accounted(t)
    ensures Inv(t, cfg)
  {
    var r := s.queue[p];
    forall x | 0 <= x < |t.heap| ensures History(t, cfg, x) {
      if x == r {
        TriedHistory(s, p, now, cfg, reply, t);
      } else if x < |s.heap| {
        OtherHistory(s, p, now, cfg, reply, t, x);
      } else {
        assert t.heap[|s.heap| + (x - |s.heap|)] == Fresh(reply.arrivals[x - |s.heap|]);
        TriesAppend(s.tries, Try(r, now, s.clock), x);
        assert Count(s, x) == 0;
        NewHistory(s, t, cfg, x);
      }
    }
  }

  lemma IterationInv(s: State, script: seq<Reply>, now: real, cfg: Config, k: nat, t: State)
    requires Accounted(s) && Closed(s) && k < |s.queue| && |script| == |s.queue|
    requires Shape(s, script, now, cfg, k, t) && Inv(t, cfg) && !HazardAt(s, now, cfg, k) && now <= t.clock
    ensures Inv(Attempt(t, s.queue[k], now, cfg, script[k]), cfg)
  {
    if Due(s, s.queue[k], now) {
      var p := |Kept(s, script, now, cfg, k)|;
      NextInPlace(s, script, now, cfg, k, t);
      AttemptInPlace(t, p, now, cfg, script[k]);
      AttemptAccounted(t, p, now, cfg, script[k]);
      AttemptInv(t, p, now, cfg, script[k], Attempt(t, s.queue[k], now, cfg, script[k]));
    }
  }

  /** Setting the clock forward, as the start of a pass does. */
  lemma ClockInv(s: State, now: real, cfg: Config)
    requires Inv(s, cfg) && s.clock <= now
    ensures Inv(s.(clock := now), cfg)
  {
    AccountedClock(s, now);
    var t := s.(clock := now);
    forall r | 0 <= r < |t.heap| ensures History(t, cfg, r) {
      assert History(s, cfg, r);
    }
  }

  lemma {:induction false} ClockAfter(s: State, script: seq<Reply>, now: real, cfg: Config, k: nat)
    requires Closed(s) && k <= |s.queue| && |script| == |s.queue|
    ensures PassTo(s, script, now, cfg, k).clock >= now
  {
    hide Attempt;
    if k == 0 {
    } else {
      ClockAfter(s, script, now, cfg, k - 1);
      AttemptTries(PassTo(s, script, now, cfg, k - 1), s.queue[k - 1], now, cfg, script[k - 1]);
    }
  }

  /** What an attempt does to the history of inserts and to the clock. */
  lemma AttemptTries(s: State, r: Ref, now: real, cfg: Config, reply: Reply)
    requires Closed(s) && r < |s.heap|
    ensures var t := Attempt(s, r, now, cfg, reply);
      && t.tries == s.tries + (if Due(s, r, now) then [Try(r, now, s.clock)] else [])
      && t.clock == s.clock + if Due(s, r, now) then reply.elapsed else 0.0
  {
    EnqueueAllFacts(s, reply.arrivals);
  }

  lemma {:induction false} PassInv(s: State, script: seq<Reply>, now: real, cfg: Config, k: nat)
    requires Inv(s, cfg) && Closed(s) && k <= |s.queue| && |script| == |s.queue|
    requires !Hazard(s, now, cfg) && s.clock <= now
    ensures Inv(PassTo(s, script, now, cfg, k), cfg)
  {
    hide Attempt, Shape;
    if k == 0 {
      ClockInv(s, now, cfg);
    } else {
      ClockAfter(s, script, now, cfg, k - 1);
      PassInv(s, script, now, cfg, k - 1);
      PassShape(s, script, now, cfg, k - 1);
      IterationInv(s, script, now, cfg, k - 1, PassTo(s, script, now, cfg, k - 1));
    }
  }

  // --------------------------------------------------------------------- whole runs

  /** No pass of the run meets a hazardous `ts` collision. */
  ghost predicate Calm(states: seq<State>, events: seq<Event>, cfg: Config)
    requires IsRun(states, events, cfg)
  {
    forall i :: 0 <= i < |events| && events[i].Tick? ==>
      Closed(states[i]) && !Hazard(states[i], events[i].now, cfg)
  }

  lemma {:induction false} CalmRunInv(states: seq<State>, events: seq<Event>, cfg: Config, n: nat)
    requires IsRun(states, events, cfg) && Calm(states, events, cfg) && n <= |events|
    ensures Inv(states[n], cfg)
  {
    if n == 0 {
    } else {
      CalmRunInv(states, events, cfg, n - 1);
      assert Step(states[n - 1], events[n - 1], cfg, states[n]);
      match events[n - 1]
      case Publish(a) => PublishInv(states[n - 1], a, cfg);
      case Tick(now, script) => PassInv(states[n - 1], script, now, cfg, |script|);
    }
  }

  lemma {:induction false} HeapKeepsTs(s: State, script: seq<Reply>, now: real, cfg: Config, k: nat)
    requires Closed(s) && k <= |s.queue| && |script| == |s.queue|
    ensures var t := PassTo(s, script, now, cfg, k);
      |s.heap| <= |t.heap| && forall x :: 0 <= x < |s.heap| ==> t.heap[x].ts == s.heap[x].ts
  {
    hide Attempt;
    if k == 0 {
    } else {
      HeapKeepsTs(s, script, now, cfg, k - 1);
      AttemptKeepsTs(PassTo(s, script, now, cfg, k - 1), s.queue[k - 1], now, cfg, script[k - 1]);
    }
  }

  lemma AttemptKeepsTs(s: State, r: Ref, now: real, cfg: Config, reply: Reply)
    requires Closed(s) && r < |s.heap|
    ensures var t := Attempt(s, r, now, cfg, reply);
      |s.heap| <= |t.heap| && forall x :: 0 <= x < |s.heap| ==> t.heap[x].ts == s.heap[x].ts
  {
    EnqueueAllFacts(s, reply.arrivals);
  }

  lemma StepKeepsTs(s: State, e: Event, cfg: Config, t: State)
    requires Step(s, e, cfg, t)
    ensures |s.heap| <= |t.heap| && forall x :: 0 <= x < |s.heap| ==> t.heap[x].ts == s.heap[x].ts
  {
    match e
    case Publish(a) =>
    case Tick(now, script) => HeapKeepsTs(s, script, now, cfg, |script|);
  }

  /** No dict ever changes its decision or its `ts`. */
  ghost predicate SameContent(h: seq<Entry>, g: seq<Entry>) {
    |h| <= |g| && forall x :: 0 <= x < |h| ==> g[x].decision == h[x].decision && g[x].ts == h[x].ts
  }

  lemma {:induction false} PassKeepsContent(s: State, script: seq<Reply>, now: real, cfg: Config, k: nat)
    requires Closed(s) && k <= |s.queue| && |script| == |s.queue|
    ensures SameContent(s.heap, PassTo(s, script, now, cfg, k).heap)
  {
    hide Attempt;
    if k == 0 {
    } else {
      PassKeepsContent(s, script, now, cfg, k - 1);
      var t := PassTo(s, script, now, cfg, k - 1);
      if Due(t, s.queue[k - 1], now) {
        AttemptContent(t, s.queue[k - 1], now, cfg, script[k - 1]);
      } else {
        NotDue(t, s.queue[k - 1], now, cfg, script[k - 1]);
      }
    }
  }

  /** Over every run, colliding or not, an entry keeps the decision and the `ts` it was
      appended with, and what a producer appends is what it supplied, due at once. */
  lemma {:induction false} RunKeepsContent(states: seq<State>, events: seq<Event>, cfg: Config, n: nat, m: nat)
    requires IsRun(states, events, cfg) && n <= m <= |events|
    ensures SameContent(states[n].heap, states[m].heap)
    ensures n < m && events[n].Publish? ==> IsNew(states[n + 1].heap[|states[n].heap|], events[n].arrival)
    decreases m
  {
    hide PassTo;
    if n == m {
    } else {
      var s, e := states[m - 1], events[m - 1];
      RunKeepsContent(states, events, cfg, n, m - 1);
      assert Step(s, e, cfg, states[m]) && Step(states[n], events[n], cfg, states[n + 1]);
      match e
      case Publish(a) =>
      case Tick(now, script) => PassKeepsContent(s, script, now, cfg, |script|);
    }
  }

  lemma {:induction false} EarlierDistinct(states: seq<State>, events: seq<Event>, cfg: Config, n: nat, m: nat)
    requires IsRun(states, events, cfg) && n <= m <= |events| && DistinctTs(states[m].heap)
    ensures DistinctTs(states[n].heap)
    decreases m
  {
    if n == m {
    } else {
      assert Step(states[m - 1], events[m - 1], cfg, states[m]);
      StepKeepsTs(states[m - 1], events[m - 1], cfg, states[m]);
      var h, g := states[m - 1].heap, states[m].heap;
      forall a, b | 0 <= a < b < |h| ensures h[a].ts != h[b].ts {
        assert h[a].ts == g[a].ts && h[b].ts == g[b].ts;
      }
      EarlierDistinct(states, events, cfg, n, m - 1);
    }
  }

  lemma {:induction false} DistinctRunInv(states: seq<State>, events: seq<Event>, cfg: Config, n: nat)
    requires IsRun(states, events, cfg) && n <= |events| && DistinctTs(states[n].heap)
    ensures Inv(states[n], cfg)
  {
    if n == 0 {
    } else {
      EarlierDistinct(states, events, cfg, n - 1, n);
      DistinctRunInv(states, events, cfg, n - 1);
      var s := states[n - 1];
      assert Step(s, events[n - 1], cfg, states[n]);
      match events[n - 1]
      case Publish(a) => PublishInv(s, a, cfg);
      case Tick(now, script) =>
        DistinctTsIsSafe(s, now, cfg);
        PassInv(s, script, now, cfg, |script|);
    }
  }

  /** Conservation over every run whose entries carry distinct `ts` values: each
      entry ever created is exactly one of still queued (once, below the cap),
      stored (once, by its last insert), or dropped (once) after exactly Cap
      failed inserts. */
  lemma RunConserves(states: seq<State>, events: seq<Event>, cfg: Config, r: Ref)
    requires IsRun(states, events, cfg) && DistinctTs(states[|events|].heap)
    requires r < |states[|events|].heap|
    ensures var s := states[|events|];
      var tries, cap := |TriesOf(s.tries, r)|, if cfg.maxRetries < 1 then 1 else cfg.maxRetries;
      && multiset(s.queue)[r] + multiset(s.stored)[r] + multiset(s.dropped)[r] == 1
      && (r in s.queue ==> tries == s.heap[r].attempts < cap)
      && (r in s.stored ==> 1 <= tries <= cap)
      && (r in s.dropped ==> tries == cap)
  {
    var s := states[|events|];
    DistinctRunInv(states, events, cfg, |events|);
    assert Count(s, r) == 1 && History(s, cfg, r);
    Members(s, r);
  }

  // ----------------------------------------------------------------------- draining

  ghost function Work(q: seq<Ref>, heap: seq<Entry>, cfg: Config): int
    requires forall i :: 0 <= i < |q| ==> q[i] < |heap|
  {
    if q == [] then 0 else Cap(cfg) - heap[q[0]].attempts + Work(q[1..], heap, cfg)
  }

  lemma {:induction false} WorkSplit(a: seq<Ref>, b: seq<Ref>, heap: seq<Entry>, cfg: Config)
    requires forall i :: 0 <= i < |a| ==> a[i] < |heap|
    requires forall i :: 0 <= i < |b| ==> b[i] < |heap|
    ensures Work(a + b, heap, cfg) == Work(a, heap, cfg) + Work(b, heap, cfg)
  {
    if a == [] {
      assert a + b == b;
    } else {
      assert (a + b)[1..] == a[1..] + b;
      WorkSplit(a[1..], b, heap, cfg);
    }
  }

  lemma {:induction false} WorkFrame(q: seq<Ref>, h1: seq<Entry>, h2: seq<Entry>, cfg: Config)
    requires forall i :: 0 <= i < |q| ==> q[i] < |h1| && q[i] < |h2| && h1[q[i]] == h2[q[i]]
    ensures Work(q, h1, cfg) == Work(q, h2, cfg)
  {
    if q == [] {
    } else {
      WorkFrame(q[1..], h1, h2, cfg);
    }
  }

  lemma WorkWithout(a: seq<Ref>, r: Ref, b: seq<Ref>, h: seq<Entry>, h': seq<Entry>, cfg: Config)
    requires forall i :: 0 <= i < |a| ==> a[i] < |h| && a[i] < |h'| && h[a[i]] == h'[a[i]]
    requires forall i :: 0 <= i < |b| ==> b[i] < |h| && b[i] < |h'| && h[b[i]] == h'[b[i]]
    requires r < |h| && r < |h'|
    ensures Work(a + ([r] + b), h, cfg) == Work(a + b, h', cfg) + Cap(cfg) - h[r].attempts
    ensures Work(a + ([r] + b), h', cfg) == Work(a + b, h', cfg) + Cap(cfg) - h'[r].attempts
  {
    WorkSplit(a, [r] + b, h, cfg); WorkSplit([r], b, h, cfg);
    WorkSplit(a, [r] + b, h', cfg); WorkSplit([r], b, h', cfg);
    WorkSplit(a, b, h', cfg);
    WorkFrame(a, h, h', cfg); WorkFrame(b, h, h', cfg);
    assert [r][1..] == [];
  }

  /** Every attempt without arrivals takes at least one unit of work off the queue. */
  lemma AttemptWorks(s: State, p: nat, now: real, cfg: Config, reply: Reply, t: State)
    requires Inv(s, cfg) && Closed(s) && p < |s.queue| && Closed(t)
    requires InPlace(s, p, now, cfg, reply, t) && reply.arrivals == []
    ensures Work(t.queue, t.heap, cfg) < Work(s.queue, s.heap, cfg)
  {
    AccountedFacts(s);
    var r := s.queue[p];
    assert History(s, cfg, r);
    var a, b := s.queue[..p], s.queue[p + 1..];
    assert s.queue == a + ([r] + b);
    assert Range(|s.heap|, |t.heap|) == [];
    hide Work, Inv, Accounted, History;
    WorkWithout(a, r, b, s.heap, t.heap, cfg);
    assert t.queue == if Leaves(s.heap[r], cfg, reply.insert) then a + b else a + ([r] + b);
  }

  ghost predicate Quiet(script: seq<Reply>) {
    forall i :: 0 <= i < |script| ==> script[i].arrivals == []
  }

  ghost predicate SomeDue(s: State, now: real)
    requires Closed(s)
  {
    exists i :: 0 <= i < |s.queue| && Due(s, s.queue[i], now)
  }

  lemma IterationWorks(s: State, script: seq<Reply>, now: real, cfg: Config, k: nat, t: State)
    requires Accounted(s) && Closed(s) && k < |s.queue| && |script| == |s.queue| && Quiet(script)
    requires Shape(s, script, now, cfg, k, t) && Inv(t, cfg) && !HazardAt(s, now, cfg, k)
    ensures var u := Attempt(t, s.queue[k], now, cfg, script[k]);
      WorkLeft(u, cfg) <= WorkLeft(t, cfg) - if Due(s, s.queue[k], now) then 1 else 0
  {
    if Due(s, s.queue[k], now) {
      var p := |Kept(s, script, now, cfg, k)|;
      NextInPlace(s, script, now, cfg, k, t);
      AttemptInPlace(t, p, now, cfg, script[k]);
      AttemptWorks(t, p, now, cfg, script[k], Attempt(t, s.queue[k], now, cfg, script[k]));
    }
  }

  ghost function WorkLeft(s: State, cfg: Config): int
    requires Closed(s)
  {
    Work(s.queue, s.heap, cfg)
  }

  /** From iteration k to iteration n of a pass the work left does not grow. */
  lemma {:induction false} PassWorks(s: State, script: seq<Reply>, now: real, cfg: Config, k: nat, n: nat)
    requires Inv(s, cfg) && Closed(s) && k <= n <= |s.queue| && |script| == |s.queue| && Quiet(script)
    requires !Hazard(s, now, cfg) && s.clock <= now
    ensures WorkLeft(PassTo(s, script, now, cfg, n), cfg) <= WorkLeft(PassTo(s, script, now, cfg, k), cfg)
    decreases n
  {
    hide Attempt, Shape, Work;
    if k == n {
    } else {
      PassWorks(s, script, now, cfg, k, n - 1);
      PassShape(s, script, now, cfg, n - 1);
      PassInv(s, script, now, cfg, n - 1);
      IterationWorks(s, script, now, cfg, n - 1, PassTo(s, script, now, cfg, n - 1));
    }
  }

  /** A pass with something due and nothing arriving makes progress. */
  lemma DuePassWorks(s: State, script: seq<Reply>, now: real, cfg: Config)
    requires Inv(s, cfg) && Closed(s) && |script| == |s.queue| && Quiet(script)
    requires !Hazard(s, now, cfg) && s.clock <= now && SomeDue(s, now)
    ensures WorkLeft(Pass(s, script, now, cfg), cfg) < WorkLeft(s, cfg)
  {
    hide Attempt, Shape, Work;
    var i :| 0 <= i < |s.queue| && Due(s, s.queue[i], now);
    PassWorks(s, script, now, cfg, 0, i);
    PassShape(s, script, now, cfg, i);
    PassInv(s, script, now, cfg, i);
    IterationWorks(s, script, now, cfg, i, PassTo(s, script, now, cfg, i));
    PassWorks(s, script, now, cfg, i + 1, |s.queue|);
  }

  lemma {:induction false} WorkBounds(s: State, q: seq<Ref>, cfg: Config)
    requires forall i :: 0 <= i < |q| ==> q[i] < |s.heap| && s.heap[q[i]].attempts < Cap(cfg)
    ensures |q| <= Work(q, s.heap, cfg) <= |q| * Cap(cfg)
  {
    if q == [] {
    } else {
      WorkBounds(s, q[1..], cfg);
      assert |q| * Cap(cfg) == |q[1..]| * Cap(cfg) + Cap(cfg);
    }
  }

  /** A chain of passes, each with nothing arriving and something due. */
  ghost predicate Draining(states: seq<State>, events: seq<Event>, cfg: Config) {
    && |states| == |events| + 1
    && forall i :: 0 <= i < |events| ==>
         && events[i].Tick? && Step(states[i], events[i], cfg, states[i + 1])
         && Quiet(events[i].script) && SomeDue(states[i], events[i].now)
         && !Hazard(states[i], events[i].now, cfg)
  }

  /** Each such pass uses up at least one of the remaining attempts, so there are at
      most Work(start) <= |queue| * Cap of them, and the queue shrinks to nothing by then. */
  lemma {:induction false} Drains(states: seq<State>, events: seq<Event>, cfg: Config)
    requires Draining(states, events, cfg) && Inv(states[0], cfg) && Closed(states[0])
    ensures Closed(states[|events|]) && Inv(states[|events|], cfg)
    ensures |states[|events|].queue| + |events|
         <= Work(states[0].queue, states[0].heap, cfg) <= |states[0].queue| * Cap(cfg)
    decreases |events|
  {
    var s := states[0];
    InvBelowCap(s, cfg);
    WorkBounds(s, s.queue, cfg);
    if events == [] {
    } else {
      var Tick(now, script) := events[0];
      assert Step(s, events[0], cfg, states[1]);
      PassInv(s, script, now, cfg, |script|);
      DuePassWorks(s, script, now, cfg);
      var rest, later := states[1..], events[1..];
      forall i | 0 <= i < |later|
        ensures later[i].Tick? && Step(rest[i], later[i], cfg, rest[i + 1]) && Quiet(later[i].script)
        ensures SomeDue(rest[i], later[i].now) && !Hazard(rest[i], later[i].now, cfg)
      {
        assert later[i] == events[i + 1] && rest[i] == states[i + 1] && rest[i + 1] == states[i + 2];
      }
      AccountedFacts(states[1]);
      Drains(rest, later, cfg);
    }
  }

  lemma InvBelowCap(s: State, cfg: Config)
    requires Inv(s, cfg)
    ensures Closed(s) && forall i :: 0 <= i < |s.queue| ==> s.heap[s.queue[i]].attempts < Cap(cfg)
  {
    AccountedFacts(s);
    forall i | 0 <= i < |s.queue| ensures s.heap[s.queue[i]].attempts < Cap(cfg) {
      assert History(s, cfg, s.queue[i]);
    }
  }

  // ----------------------------------------------------------- what a pass leaves alone

  /** A pass never touches an entry that is not yet due, keeps the survivors in
      order, and leaves everything appended during it at the tail. */
  lemma PassFrame(s: State, script: seq<Reply>, now: real, cfg: Config, i: nat)
    requires Accounted(s) && Closed(s) && |script| == |s.queue| && !Hazard(s, now, cfg)
    ensures var t := Pass(s, script, now, cfg);
      && t.queue == Kept(s, script, now, cfg, |s.queue|) + Range(|s.heap|, |t.heap|)
      && (i < |s.queue| && !Due(s, s.queue[i], now) ==>
            s.queue[i] in t.queue && t.heap[s.queue[i]] == s.heap[s.queue[i]])
  {
    PassShape(s, script, now, cfg, |s.queue|);
    if i < |s.queue| { KeptMember(s, script, now, cfg, |s.queue|, s.queue[i]); }
    var t := Pass(s, script, now, cfg);
    assert s.queue[|s.queue|..] == [];
    assert t.queue == Kept(s, script, now, cfg, |s.queue|) + Range(|s.heap|, |t.heap|);
  }
}
