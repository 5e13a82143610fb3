// What one retry pass keeps and loses: the shape of the state after each iteration,
// and exactly when no entry can be lost.
module DeadLetterListProofs {
  import opened Common
  import opened DeadLetterList

  // ------------------------------------------------------------- conservation

  /** How often r occurs among the queued, the stored and the dropped entries. */
  ghost function Count(s: State, r: Ref): nat {
    multiset(s.queue)[r] + multiset(s.stored)[r] + multiset(s.dropped)[r]
  }

  /** Every entry ever created is exactly one of: queued (once), stored (once), dropped (once). */
  ghost predicate Accounted(s: State) {
    forall r: nat :: Count(s, r) == if r < |s.heap| then 1 else 0
  }

  /** A colliding `ts` that can cost an entry: q[j] is about to be tried while an
      earlier entry with the same `ts` may still be in the list. */
  ghost predicate HazardAt(s: State, now: real, cfg: Config, j: nat)
    requires Closed(s) && j < |s.queue|
  {
    exists i :: 0 <= i < j && Collides(s, now, cfg, i, j)
  }

  ghost predicate Collides(s: State, now: real, cfg: Config, i: nat, j: nat)
    requires Closed(s) && i < j < |s.queue|
  {
    && s.heap[s.queue[i]].ts == s.heap[s.queue[j]].ts
    && Due(s, s.queue[j], now)
    && (!Due(s, s.queue[i], now) || s.heap[s.queue[i]].attempts + 1 < Cap(cfg))
  }

  ghost predicate Hazard(s: State, now: real, cfg: Config)
    requires Closed(s)
  {
    exists j :: 0 <= j < |s.queue| && HazardAt(s, now, cfg, j)
  }

  ghost predicate DistinctTs(heap: seq<Entry>) {
    forall a, b :: 0 <= a < b < |heap| ==> heap[a].ts != heap[b].ts
  }

  lemma AccountedFacts(s: State)
    requires Accounted(s)
    ensures Closed(s) && Distinct(s.queue)
    ensures forall r | r in s.queue :: r !in s.stored && r !in s.dropped
  {
    forall i | 0 <= i < |s.queue| ensures s.queue[i] < |s.heap| {
      assert s.queue[i] in multiset(s.queue);
      assert Count(s, s.queue[i]) >= 1;
    }
    forall i, j | 0 <= i < j < |s.queue| ensures s.queue[i] != s.queue[j] {
      assert s.queue == s.queue[..j] + s.queue[j..];
      assert s.queue[i] in multiset(s.queue[..j]) by { assert s.queue[..j][i] == s.queue[i]; }
      assert s.queue[j] in multiset(s.queue[j..]) by { assert s.queue[j..][0] == s.queue[j]; }
      assert Count(s, s.queue[i]) <= 1;
    }
    forall r | r in s.queue ensures r !in s.stored && r !in s.dropped {
      assert r in multiset(s.queue);
      assert Count(s, r) <= 1;
    }
  }

  lemma DistinctTsIsSafe(s: State, now: real, cfg: Config)
    requires Accounted(s) && Closed(s) && DistinctTs(s.heap)
    ensures !Hazard(s, now, cfg)
  {
    AccountedFacts(s);
    forall j | 0 <= j < |s.queue| ensures !HazardAt(s, now, cfg, j) {
      forall i | 0 <= i < j ensures !Collides(s, now, cfg, i, j) {
        var a, b := s.queue[i], s.queue[j];
        assert a < b || b < a;
      }
    }
  }

  // ------------------------------------------- one attempt, when it hits its own slot

  ghost predicate FirstAt(heap: seq<Entry>, q: seq<Ref>, p: nat) {
    && p < |q|
    && (forall i :: 0 <= i < |q| ==> q[i] < |heap|)
    && (forall i :: 0 <= i < p ==> heap[q[i]].ts != heap[q[p]].ts)
  }

  lemma SlotsAt(heap: seq<Entry>, q: seq<Ref>, p: nat)
    requires FirstAt(heap, q, p)
    ensures SlotOf(heap, q, q[p], 0) == p && EqualSlot(heap, q, q[p], 0) == p
  {
    var i, k := SlotOf(heap, q, q[p], 0), EqualSlot(heap, q, q[p], 0);
    assert !(i > p) && !(k > p);
  }

  ghost predicate Leaves(e: Entry, cfg: Config, insert: Insert) {
    insert.Stored? || e.attempts + 1 >= Cap(cfg)
  }

  /** What an attempt on the entry in slot p does when no earlier entry shadows it. */
  ghost predicate InPlace(s: State, p: nat, now: real, cfg: Config, reply: Reply, t: State)
    requires Closed(s) && p < |s.queue|
  {
    var r := s.queue[p];
    && |t.heap| == |s.heap| + |reply.arrivals|
    && t.queue == (if Leaves(s.heap[r], cfg, reply.insert) then Without(s.queue, p) else s.queue)
                  + Range(|s.heap|, |t.heap|)
    && t.stored == s.stored + (if reply.insert.Stored? then [r] else [])
    && t.dropped == s.dropped + (if Leaves(s.heap[r], cfg, reply.insert) && !reply.insert.Stored? then [r] else [])
    && t.tries == s.tries + [Try(r, now, s.clock)] && t.clock == s.clock + reply.elapsed
    && (forall x :: 0 <= x < |s.heap| && x != r ==> t.heap[x] == s.heap[x])
    && t.heap[r] == (if reply.insert.Stored? then s.heap[r] else Failed(s.heap[r], reply.insert.error, now, cfg))
    && (forall i :: 0 <= i < |reply.arrivals| ==> t.heap[|s.heap| + i] == Fresh(reply.arrivals[i]))
  }

  lemma AttemptInPlace(s: State, p: nat, now: real, cfg: Config, reply: Reply)
    requires Closed(s) && FirstAt(s.heap, s.queue, p) && Due(s, s.queue[p], now)
    ensures InPlace(s, p, now, cfg, reply, Attempt(s, s.queue[p], now, cfg, reply))
  {
    var r := s.queue[p];
    EnqueueAllFacts(s, reply.arrivals);
    var u := EnqueueAll(s, reply.arrivals);
    WithoutAppend(s.queue, Range(|s.heap|, |u.heap|), p);
    match reply.insert
    case Stored =>
      assert FirstAt(u.heap, u.queue, p);
      SlotsAt(u.heap, u.queue, p);
    case Raised(error) =>
      var heap := u.heap[r := Failed(u.heap[r], error, now, cfg)];
      assert FirstAt(heap, u.queue, p);
      SlotsAt(heap, u.queue, p);
      assert u.queue[p := r] == u.queue;
  }

  /** What an attempt writes into the dicts: a failed insert leaves decision and `ts`
      alone, stores its error, counts, and puts the entry off by a delay that doubles
      from the base with each failure until it reaches the maximum. */
  lemma AttemptContent(s: State, r: Ref, now: real, cfg: Config, reply: Reply)
    requires Closed(s) && r < |s.heap| && s.heap[r].nextAttempt <= now
    ensures var t, e := Attempt(s, r, now, cfg, reply), s.heap[r];
      && |t.heap| == |s.heap| + |reply.arrivals|
      && (forall x :: 0 <= x < |s.heap| && x != r ==> t.heap[x] == s.heap[x])
      && (reply.insert.Stored? ==> t.heap[r] == e)
      && (reply.insert.Raised? ==> PutOff(e, t.heap[r], reply.insert.error, now, cfg))
      && (forall i :: 0 <= i < |reply.arrivals| ==> IsNew(t.heap[|s.heap| + i], reply.arrivals[i]))
  {
    EnqueueAllFacts(s, reply.arrivals);
    if reply.insert.Raised? { FailedPutsOff(s.heap[r], reply.insert.error, now, cfg); }
    hide PutOff, Failed;
  }

  lemma FailedPutsOff(e: Entry, error: string, now: real, cfg: Config)
    ensures PutOff(e, Failed(e, error, now, cfg), error, now, cfg)
  {
  }

  ghost predicate PutOff(e: Entry, f: Entry, error: string, now: real, cfg: Config) {
    && f.decision == e.decision && f.ts == e.ts && f.error == error && f.attempts == e.attempts + 1
    && var full := cfg.baseDelay * Pow2(e.attempts);
    f.nextAttempt - now == if full <= cfg.maxDelay then full else cfg.maxDelay
  }

  ghost predicate IsNew(e: Entry, a: Arrival) {
    e.decision == a.decision && e.error == a.error && e.ts == a.ts && e.attempts == 0 && e.nextAttempt == 0.0
  }

  lemma WithoutAppend(q: seq<Ref>, a: seq<Ref>, p: nat)
    requires p < |q|
    ensures Without(q + a, p) == Without(q, p) + a
  {
  }

  lemma AttemptAccounted(s: State, p: nat, now: real, cfg: Config, reply: Reply)
    requires Accounted(s) && Closed(s) && p < |s.queue| && FirstAt(s.heap, s.queue, p)
    requires Due(s, s.queue[p], now)
    ensures Accounted(Attempt(s, s.queue[p], now, cfg, reply))
  {
    var r := s.queue[p];
    var t := Attempt(s, r, now, cfg, reply);
    AttemptInPlace(s, p, now, cfg, reply);
    hide Attempt, Without;
    forall x: nat ensures Count(t, x) == if x < |t.heap| then 1 else 0 {
      assert Count(s, x) == if x < |s.heap| then 1 else 0;
      RangeCount(|s.heap|, |t.heap|, x);
      WithoutCount(s.queue, p);
    }
  }

  lemma WithoutCount(q: seq<Ref>, p: nat)
    requires p < |q|
    ensures multiset(q) == multiset(Without(q, p)) + multiset{q[p]}
  {
    assert q == q[..p] + ([q[p]] + q[p + 1..]);
  }

  lemma {:induction false} RangeCount(lo: nat, hi: nat, x: nat)
    requires lo <= hi
    ensures multiset(Range(lo, hi))[x] == if lo <= x < hi then 1 else 0
    decreases hi
  {
    if lo == hi {
    } else {
      RangeCount(lo, hi - 1, x);
      RangeSplit(lo, hi - 1, hi);
      assert Range(hi - 1, hi) == [hi - 1];
    }
  }

  // ------------------------------------------------------------ one pass, in place

  /** The entries of the first k that stay queued, in order. */
  ghost function Kept(s: State, script: seq<Reply>, now: real, cfg: Config, k: nat): seq<Ref>
    requires Closed(s) && k <= |s.queue| && |script| == |s.queue|
  {
    if k == 0 then [] else
    var r := s.queue[k - 1];
    Kept(s, script, now, cfg, k - 1)
    + if Due(s, r, now) && Leaves(s.heap[r], cfg, script[k - 1].insert) then [] else [r]
  }

  lemma {:induction false} KeptMember(s: State, script: seq<Reply>, now: real, cfg: Config, k: nat, x: Ref)
    requires Closed(s) && k <= |s.queue| && |script| == |s.queue|
    ensures x in Kept(s, script, now, cfg, k) <==>
      exists i :: 0 <= i < k && s.queue[i] == x && !(Due(s, x, now) && Leaves(s.heap[x], cfg, script[i].insert))
  {
    if k == 0 {
    } else {
      KeptMember(s, script, now, cfg, k - 1, x);
    }
  }

  /** Shape of the state after k iterations: the survivors so far, the entries
      still to come, untouched, and behind them everything that arrived meanwhile. */
  ghost predicate Shape(s: State, script: seq<Reply>, now: real, cfg: Config, k: nat, t: State)
    requires Closed(s) && k <= |s.queue| && |script| == |s.queue|
  {
    && Closed(t)
    && |s.heap| <= |t.heap|
    && t.queue == Kept(s, script, now, cfg, k) + s.queue[k..] + Range(|s.heap|, |t.heap|)
    && ShapeHeap(s, now, k, t.heap)
  }

  /** No `ts` has changed, nor any entry to come or not due, and arrivals are fresh. */
  ghost predicate ShapeHeap(s: State, now: real, k: nat, heap: seq<Entry>)
    requires Closed(s) && k <= |s.queue| && |s.heap| <= |heap|
  {
    && (forall x :: 0 <= x < |s.heap| ==> heap[x].ts == s.heap[x].ts)
    && (forall i :: k <= i < |s.queue| ==> heap[s.queue[i]] == s.heap[s.queue[i]])
    && (forall i :: 0 <= i < |s.queue| && !Due(s, s.queue[i], now) ==> heap[s.queue[i]] == s.heap[s.queue[i]])
    && (forall x :: |s.heap| <= x < |heap| ==> heap[x].attempts == 0 && heap[x].nextAttempt == 0.0)
  }

  /** The entry to be tried next is in the list, unshadowed. */
  lemma NextInPlace(s: State, script: seq<Reply>, now: real, cfg: Config, k: nat, t: State)
    requires Accounted(s) && Closed(s) && k < |s.queue| && |script| == |s.queue|
    requires Shape(s, script, now, cfg, k, t)
    requires Due(s, s.queue[k], now) && !HazardAt(s, now, cfg, k)
    ensures var p := |Kept(s, script, now, cfg, k)|;
      p < |t.queue| && t.queue[p] == s.queue[k] && FirstAt(t.heap, t.queue, p) && Due(t, s.queue[k], now)
  {
    var K := Kept(s, script, now, cfg, k);
    var p := |K|;
    assert t.queue[p] == s.queue[k];
    forall i | 0 <= i < p ensures t.heap[t.queue[i]].ts != t.heap[t.queue[p]].ts {
      var x := t.queue[i];
      assert x == K[i] && x in K;
      KeptMember(s, script, now, cfg, k, x);
      var j :| 0 <= j < k && s.queue[j] == x && !(Due(s, x, now) && Leaves(s.heap[x], cfg, script[j].insert));
      assert !Collides(s, now, cfg, j, k);
    }
  }

  /** The list: the entry after the survivors joins them or leaves, arrivals go to the tail. */
  lemma QueueStep(K: seq<Ref>, todo: seq<Ref>, A: seq<Ref>, B: seq<Ref>, leaves: bool)
    requires todo != []
    ensures var q := K + todo + A;
      (if leaves then Without(q, |K|) else q) + B
      == (K + if leaves then [] else [todo[0]]) + todo[1..] + (A + B)
  {
    var q := K + todo + A;
    assert q[..|K|] == K && q[|K| + 1..] == todo[1..] + A;
    assert todo == [todo[0]] + todo[1..];
  }

  /** The dicts: only that of the entry just tried has changed. */
  lemma HeapStep(s: State, now: real, cfg: Config, k: nat, t: State, p: nat, reply: Reply, u: State)
    requires Closed(s) && Distinct(s.queue) && k < |s.queue| && Due(s, s.queue[k], now)
    requires |s.heap| <= |t.heap| && ShapeHeap(s, now, k, t.heap)
    requires Closed(t) && p < |t.queue| && t.queue[p] == s.queue[k] && InPlace(t, p, now, cfg, reply, u)
    ensures ShapeHeap(s, now, k + 1, u.heap)
  {
    forall x | |s.heap| <= x < |u.heap| ensures u.heap[x].attempts == 0 && u.heap[x].nextAttempt == 0.0 {
      if x >= |t.heap| {
        assert u.heap[|t.heap| + (x - |t.heap|)] == Fresh(reply.arrivals[x - |t.heap|]);
      }
    }
  }

  lemma ShapeStep(s: State, script: seq<Reply>, now: real, cfg: Config, k: nat, t: State, u: State)
    requires Closed(s) && Distinct(s.queue) && k < |s.queue| && |script| == |s.queue|
    requires Shape(s, script, now, cfg, k, t)
    requires Due(s, s.queue[k], now)
    requires var p := |Kept(s, script, now, cfg, k)|;
      p < |t.queue| && t.queue[p] == s.queue[k] && InPlace(t, p, now, cfg, script[k], u) && Closed(u)
    ensures Shape(s, script, now, cfg, k + 1, u)
  {
    var r, todo := s.queue[k], s.queue[k..];
    var K := Kept(s, script, now, cfg, k);
    var leaves := Leaves(s.heap[r], cfg, script[k].insert);
    assert todo[0] == r && todo[1..] == s.queue[k + 1..];
    HeapStep(s, now, cfg, k, t, |K|, script[k], u);
    InPlaceQueue(t, |K|, now, cfg, script[k], u);
    assert t.heap[r] == s.heap[r];
    hide InPlace, ShapeHeap, Leaves;
    RangeSplit(|s.heap|, |t.heap|, |u.heap|);
    QueueStep(K, todo, Range(|s.heap|, |t.heap|), Range(|t.heap|, |u.heap|), leaves);
  }

  lemma InPlaceQueue(s: State, p: nat, now: real, cfg: Config, reply: Reply, t: State)
    requires Closed(s) && p < |s.queue| && InPlace(s, p, now, cfg, reply, t)
    ensures |s.heap| <= |t.heap|
    ensures t.queue == (if Leaves(s.heap[s.queue[p]], cfg, reply.insert) then Without(s.queue, p) else s.queue)
                       + Range(|s.heap|, |t.heap|)
  {
  }

  lemma ShapeSkip(s: State, script: seq<Reply>, now: real, cfg: Config, k: nat, t: State)
    requires Closed(s) && k < |s.queue| && |script| == |s.queue|
    requires Shape(s, script, now, cfg, k, t) && !Due(s, s.queue[k], now)
    ensures Shape(s, script, now, cfg, k + 1, t)
  {
    var todo := s.queue[k..];
    assert todo[0] == s.queue[k] && todo[1..] == s.queue[k + 1..];
    QueueStep(Kept(s, script, now, cfg, k), todo, Range(|s.heap|, |t.heap|), [], false);
    assert t.queue == Kept(s, script, now, cfg, k + 1) + s.queue[k + 1..] + Range(|s.heap|, |t.heap|);
  }

  /** One more iteration of a pass: in place, shape and account kept. */
  lemma PassStep(s: State, script: seq<Reply>, now: real, cfg: Config, k: nat, t: State)
    requires Accounted(s) && Closed(s) && Distinct(s.queue) && k < |s.queue| && |script| == |s.queue|
    requires Shape(s, script, now, cfg, k, t) && Accounted(t) && !HazardAt(s, now, cfg, k)
    ensures Shape(s, script, now, cfg, k + 1, Attempt(t, s.queue[k], now, cfg, script[k]))
    ensures Accounted(Attempt(t, s.queue[k], now, cfg, script[k]))
  {
    if Due(s, s.queue[k], now) {
      var p := |Kept(s, script, now, cfg, k)|;
      NextInPlace(s, script, now, cfg, k, t);
      AttemptInPlace(t, p, now, cfg, script[k]);
      AttemptAccounted(t, p, now, cfg, script[k]);
      ShapeStep(s, script, now, cfg, k, t, Attempt(t, s.queue[k], now, cfg, script[k]));
    } else {
      ShapeSkip(s, script, now, cfg, k, t);
    }
  }

  lemma ShapeStart(s: State, script: seq<Reply>, now: real, cfg: Config)
    requires Closed(s) && Accounted(s) && |script| == |s.queue|
    ensures Shape(s, script, now, cfg, 0, s.(clock := now)) && Accounted(s.(clock := now))
  {
    AccountedClock(s, now);
    assert Kept(s, script, now, cfg, 0) + s.queue[0..] + Range(|s.heap|, |s.heap|) == s.queue;
  }

  lemma AccountedClock(s: State, now: real)
    requires Accounted(s)
    ensures Accounted(s.(clock := now))
  {
    forall r: nat ensures Count(s.(clock := now), r) == if r < |s.heap| then 1 else 0 {
      assert Count(s, r) == if r < |s.heap| then 1 else 0;
    }
  }

  lemma {:induction false} PassShape(s: State, script: seq<Reply>, now: real, cfg: Config, k: nat)
    requires Accounted(s) && Closed(s) && k <= |s.queue| && |script| == |s.queue|
    requires forall j :: 0 <= j < k ==> !HazardAt(s, now, cfg, j)
    ensures Shape(s, script, now, cfg, k, PassTo(s, script, now, cfg, k))
    ensures Accounted(PassTo(s, script, now, cfg, k))
  {
    hide Attempt, Shape;
    AccountedFacts(s);
    if k == 0 {
      ShapeStart(s, script, now, cfg);
    } else {
      PassShape(s, script, now, cfg, k - 1);
      PassStep(s, script, now, cfg, k - 1, PassTo(s, script, now, cfg, k - 1));
    }
  }

  // ------------------------------------------------- exactly when entries are lost

  ghost function AllFail(n: nat): seq<Reply> {
    seq(n, i => Reply(Raised("database down"), [], 0.0))
  }

  lemma {:induction false} FirstHazard(s: State, now: real, cfg: Config, j: nat) returns (m: nat)
    requires Closed(s) && j < |s.queue| && HazardAt(s, now, cfg, j)
    ensures m < |s.queue| && HazardAt(s, now, cfg, m) && forall k :: 0 <= k < m ==> !HazardAt(s, now, cfg, k)
  {
    if k :| 0 <= k < j && HazardAt(s, now, cfg, k) {
      m := FirstHazard(s, now, cfg, k);
    } else {
      m := j;
    }
  }

  /** A failed insert with no arrivals: the list before the cap check. */
  ghost function FailQueue(t: State, r: Ref, now: real, cfg: Config, error: string): (q: seq<Ref>)
    requires Closed(t) && r < |t.heap|
  {
    Placed(t.heap[r := Failed(t.heap[r], error, now, cfg)], t.queue, r)
  }

  lemma WithoutSub(q: seq<Ref>, i: nat, x: Ref)
    requires i <= |q| && x !in q
    ensures x !in Without(q, i)
  {
  }

  lemma FailAccount(t: State, r: Ref, x: Ref, now: real, cfg: Config, reply: Reply)
    requires Closed(t) && r < |t.heap| && Due(t, r, now) && reply.insert.Raised? && reply.arrivals == []
    requires x != r && x !in t.stored && x !in t.dropped
    requires x !in FailQueue(t, r, now, cfg, reply.insert.error)
    ensures Count(Attempt(t, r, now, cfg, reply), x) == 0
  {
    assert EnqueueAll(t, []) == t;
    var heap := t.heap[r := Failed(t.heap[r], reply.insert.error, now, cfg)];
    var q := FailQueue(t, r, now, cfg, reply.insert.error);
    assert forall j :: 0 <= j < |q| ==> q[j] < |heap|;
    WithoutSub(q, EqualSlot(heap, q, r, 0), x);
    var u := Attempt(t, r, now, cfg, reply);
    assert x !in u.queue && x !in u.stored && x !in u.dropped;
  }

  /** Failing an entry shadowed by another dict overwrites that dict's slot. */
  lemma Overwrite(t: State, p: nat, i: nat, now: real, cfg: Config, reply: Reply) returns (k: nat)
    requires Accounted(t) && Closed(t) && i < p < |t.queue| && Due(t, t.queue[p], now)
    requires t.heap[t.queue[i]].ts == t.heap[t.queue[p]].ts
    requires reply.insert.Raised? && reply.arrivals == []
    ensures k <= i && Count(Attempt(t, t.queue[p], now, cfg, reply), t.queue[k]) == 0
  {
    AccountedFacts(t);
    var r := t.queue[p];
    var heap := t.heap[r := Failed(t.heap[r], reply.insert.error, now, cfg)];
    k := SlotOf(heap, t.queue, r, 0);
    assert k <= i by { assert heap[t.queue[i]].ts == heap[r].ts; }
    var x := t.queue[k];
    var q := FailQueue(t, r, now, cfg, reply.insert.error);
    forall m | 0 <= m < |q| ensures q[m] != x { }
    FailAccount(t, r, x, now, cfg, reply);
  }

  lemma LostStaysLost(t: State, r: Ref, x: Ref, now: real, cfg: Config, reply: Reply)
    requires Closed(t) && r < |t.heap| && x != r && Count(t, x) == 0
    requires reply.insert.Raised? && reply.arrivals == []
    ensures Count(Attempt(t, r, now, cfg, reply), x) == 0
  {
    assert x !in t.queue && x !in t.stored && x !in t.dropped;
    if Due(t, r, now) {
      FailAccount(t, r, x, now, cfg, reply);
    }
  }

  ghost predicate Hopeless(script: seq<Reply>) {
    forall i :: 0 <= i < |script| ==> script[i].insert.Raised? && script[i].arrivals == []
  }

  lemma {:induction false} LostToTheEnd(s: State, script: seq<Reply>, now: real, cfg: Config, j: nat, k: nat, x: Ref)
    requires Closed(s) && |script| == |s.queue| && Hopeless(script)
    requires j <= k <= |s.queue| && forall i :: j <= i < |s.queue| ==> s.queue[i] != x
    requires Count(PassTo(s, script, now, cfg, j), x) == 0
    ensures Count(PassTo(s, script, now, cfg, k), x) == 0
    decreases k
  {
    hide Attempt;
    if k == j {
    } else {
      LostToTheEnd(s, script, now, cfg, j, k - 1, x);
      LostStaysLost(PassTo(s, script, now, cfg, k - 1), s.queue[k - 1], x, now, cfg, script[k - 1]);
    }
  }

  /** The first hazardous attempt of an all-failing pass overwrites an earlier entry. */
  lemma HazardOverwrites(s: State, now: real, cfg: Config, j: nat, i: nat, t: State) returns (m: nat)
    requires Accounted(s) && Closed(s) && i < j < |s.queue| && Collides(s, now, cfg, i, j)
    requires Shape(s, AllFail(|s.queue|), now, cfg, j, t) && Accounted(t)
    ensures m < j && Count(Attempt(t, s.queue[j], now, cfg, AllFail(|s.queue|)[j]), s.queue[m]) == 0
  {
    hide Attempt;
    var script := AllFail(|s.queue|);
    var K := Kept(s, script, now, cfg, j);
    KeptMember(s, script, now, cfg, j, s.queue[i]);
    var a :| 0 <= a < |K| && K[a] == s.queue[i];
    assert t.queue[a] == s.queue[i] && t.queue[|K|] == s.queue[j];
    var k := Overwrite(t, |K|, a, now, cfg, script[j]);
    assert t.queue[k] == K[k];
    KeptMember(s, script, now, cfg, j, K[k]);
    m :| 0 <= m < j && s.queue[m] == K[k];
  }

  /** Under a hazard, a pass whose inserts all fail forgets a queued entry entirely. */
  lemma HazardLoses(s: State, now: real, cfg: Config) returns (x: Ref)
    requires Accounted(s) && Closed(s) && Hazard(s, now, cfg)
    ensures x in s.queue && Count(Pass(s, AllFail(|s.queue|), now, cfg), x) == 0
  {
    hide Attempt, Shape, Count, Collides;
    AccountedFacts(s);
    hide Accounted;
    var h :| 0 <= h < |s.queue| && HazardAt(s, now, cfg, h);
    var j := FirstHazard(s, now, cfg, h);
    PassShape(s, AllFail(|s.queue|), now, cfg, j);
    var i :| 0 <= i < j && Collides(s, now, cfg, i, j);
    var m := HazardOverwrites(s, now, cfg, j, i, PassTo(s, AllFail(|s.queue|), now, cfg, j));
    x := s.queue[m];
    LostToTheEnd(s, AllFail(|s.queue|), now, cfg, j + 1, |s.queue|, x);
  }

  /** A pass keeps account of every entry, whatever the database and the producers
      do, exactly when no due entry has an earlier entry of the same `ts` in the
      queue that may outlast its own attempt. */
  lemma PassConservesIff(s: State, now: real, cfg: Config)
    requires Accounted(s) && Closed(s)
    ensures (forall script: seq<Reply> | |script| == |s.queue| :: Accounted(Pass(s, script, now, cfg)))
            <==> !Hazard(s, now, cfg)
  {
    if Hazard(s, now, cfg) {
      var x := HazardLoses(s, now, cfg);
      AccountedFacts(s);
      var script := AllFail(|s.queue|);
      assert |script| == |s.queue| && !Accounted(Pass(s, script, now, cfg)) by {
        HeapGrows(s, script, now, cfg, |s.queue|);
        assert Count(Pass(s, script, now, cfg), x) == 0;
      }
    } else {
      forall script: seq<Reply> | |script| == |s.queue| ensures Accounted(Pass(s, script, now, cfg)) {
        PassShape(s, script, now, cfg, |s.queue|);
      }
    }
  }

  lemma HeapGrows(s: State, script: seq<Reply>, now: real, cfg: Config, k: nat)
    requires Closed(s) && k <= |s.queue| && |script| == |s.queue|
    ensures |s.heap| <= |PassTo(s, script, now, cfg, k).heap|
  {
  }

  const TWINS := State([0, 1], [Entry(10, "down", 7, 0, 0.0), Entry(11, "down", 7, 0, 0.0)], [], [], [], 0.0)

  /** Two decisions that failed to persist in the same millisecond: when both retries
      fail, the first is gone and the second is queued twice. */
  lemma CollisionExample(now: real)
    requires now >= 0.0
    ensures Accounted(TWINS) && Closed(TWINS)
    ensures Pass(TWINS, AllFail(2), now, Config(1.0, 60.0, 5)).queue == [1, 1]
  {
    var cfg, script := Config(1.0, 60.0, 5), AllFail(2);
    forall r: nat ensures Count(TWINS, r) == if r < 2 then 1 else 0 { }
    assert Pow2(0) == 1.0;
    var e0 := Failed(TWINS.heap[0], "database down", now, cfg);
    var s1 := PassTo(TWINS, script, now, cfg, 1);
    var s0 := PassTo(TWINS, script, now, cfg, 0);
    assert EnqueueAll(s0, []) == s0;
    assert s1.queue == [0, 1] && s1.heap == [e0, TWINS.heap[1]];
    assert EnqueueAll(s1, []) == s1;
    assert SlotOf(s1.heap[1 := Failed(s1.heap[1], "database down", now, cfg)], s1.queue, 1, 0) == 0;
  }
}
