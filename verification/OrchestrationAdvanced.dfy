// Cooldown windows per event type, and the bounded cache of tracked events.
//
// Recording an event reads the clock up to three times: for the event itself, for
// the cooldown test, and for the start of a new window.
module OrchestrationAdvanced {
  import opened Common

  // -------------------------------------------------------------------------- cooldowns

  datatype Tracker = Tracker(cooldownUntil: int, eventsInWindow: nat, lastEvent: int)

  const NEW_TRACKER := Tracker(0, 0, 0)

  /** The three clock readings of one recorded event. */
  datatype Tick = Tick(event: int, test: int, reset: int)

  predicate Opens(tr: Tracker, t: Tick) {
    !(t.test < tr.cooldownUntil)
  }

  function Record(tr: Tracker, cooldown: int, t: Tick): Tracker {
    if Opens(tr, t) then Tracker(t.reset + cooldown, 0, t.reset)
    else Tracker(tr.cooldownUntil, tr.eventsInWindow + 1, t.event)
  }

  class CooldownManager {
    var trackers: map<string, Tracker>
    var configs: map<string, int>

    ghost predicate Valid()
      reads this
    {
      configs.Keys <= trackers.Keys
    }

    constructor ()
      ensures Valid() && trackers == map[] && configs == map[]
    {
      trackers, configs := map[], map[];
    }

    /** A new configuration keeps the running window. */
    method ConfigureCooldown(eventType: string, cooldown: int)
      requires Valid()
      modifies this
      ensures Valid() && configs == old(configs)[eventType := cooldown]
      ensures trackers == if eventType in old(trackers) then old(trackers) else old(trackers)[eventType := NEW_TRACKER]
    {
      configs := configs[eventType := cooldown];
      if eventType !in trackers {
        trackers := trackers[eventType := Tracker(0, 0, 0)];
      }
    }

    method RecordEvent(eventType: string, t: Tick)
      requires Valid()
      modifies this`trackers
      ensures Valid()
      ensures trackers == if eventType in configs
        then old(trackers)[eventType := Record(old(trackers)[eventType], configs[eventType], t)] else old(trackers)
    {
      if eventType !in configs {
        return;
      }
      var tr := trackers[eventType];
      tr := tr.(eventsInWindow := tr.eventsInWindow + 1, lastEvent := t.event);
      if !(t.test < tr.cooldownUntil) {
        tr := tr.(cooldownUntil := t.reset + configs[eventType], eventsInWindow := 0, lastEvent := t.reset);
      }
      trackers := trackers[eventType := tr];
    }
  }

  /** The tracker after the first k recorded events. */
  function After(ticks: seq<Tick>, cooldown: int, k: nat): Tracker
    requires k <= |ticks|
  {
    if k == 0 then NEW_TRACKER else Record(After(ticks, cooldown, k - 1), cooldown, ticks[k - 1])
  }

  /** The numbers of the events among the first k that opened a window. */
  function Resets(ticks: seq<Tick>, cooldown: int, k: nat): (r: seq<nat>)
    requires k <= |ticks|
    ensures forall i :: 0 <= i < |r| ==> r[i] < k
  {
    if k == 0 then [] else
    Resets(ticks, cooldown, k - 1) + if Opens(After(ticks, cooldown, k - 1), ticks[k - 1]) then [k - 1] else []
  }

  /** The clock never runs backwards. */
  ghost predicate Monotone(ticks: seq<Tick>) {
    && (forall i :: 0 <= i < |ticks| ==> ticks[i].event <= ticks[i].test <= ticks[i].reset)
    && (forall i, j :: 0 <= i < j < |ticks| ==> ticks[i].reset <= ticks[j].event)
  }

  ghost predicate Means(ticks: seq<Tick>, cooldown: int, k: nat, r: seq<nat>, tr: Tracker)
    requires k <= |ticks|
  {
    && (k > 0 ==> tr.lastEvent == if r != [] && r[|r| - 1] == k - 1 then ticks[k - 1].reset else ticks[k - 1].event)
    && if r == [] then tr.cooldownUntil == 0 && tr.eventsInWindow == k
       else var last := r[|r| - 1];
         last < k && tr.cooldownUntil == ticks[last].reset + cooldown && tr.eventsInWindow == k - 1 - last
  }

  /** The tracker is a function of the last reset: the window it opened is still the
      current one, and holds every event recorded since. */
  lemma {:induction false} TrackerMeaning(ticks: seq<Tick>, cooldown: int, k: nat)
    requires k <= |ticks|
    ensures Means(ticks, cooldown, k, Resets(ticks, cooldown, k), After(ticks, cooldown, k))
  {
    if k == 0 {
    } else {
      TrackerMeaning(ticks, cooldown, k - 1);
      MeansStep(ticks, cooldown, k - 1, Resets(ticks, cooldown, k - 1), After(ticks, cooldown, k - 1));
    }
  }

  lemma MeansStep(ticks: seq<Tick>, cooldown: int, k: nat, r: seq<nat>, tr: Tracker)
    requires k < |ticks| && Means(ticks, cooldown, k, r, tr)
    ensures Means(ticks, cooldown, k + 1, r + if Opens(tr, ticks[k]) then [k] else [], Record(tr, cooldown, ticks[k]))
  {
  }

  /** An event opens a window if and only if the cooldown since the last one that did is
      over; the first event does so unless the clock is negative. */
  lemma OpensIff(ticks: seq<Tick>, cooldown: int, k: nat)
    requires k < |ticks|
    ensures var r := Resets(ticks, cooldown, k);
      (k in Resets(ticks, cooldown, k + 1)) <==>
        ticks[k].test >= if r == [] then 0 else ticks[r[|r| - 1]].reset + cooldown
  {
    TrackerMeaning(ticks, cooldown, k);
  }

  /** Consecutive resets are spaced, and all of them are among the first k events. */
  ghost predicate Spaced(ticks: seq<Tick>, cooldown: int, k: nat, r: seq<nat>)
    requires k <= |ticks|
  {
    && (forall i :: 0 <= i < |r| ==> r[i] < k)
    && (forall i, j :: 0 <= i && j == i + 1 && j < |r| ==>
          r[i] < r[j] && ticks[r[j]].reset - ticks[r[i]].reset >= cooldown)
  }

  lemma SpacedStep(ticks: seq<Tick>, cooldown: int, k: nat, r: seq<nat>, tr: Tracker)
    requires Monotone(ticks) && k < |ticks| && Means(ticks, cooldown, k, r, tr) && Spaced(ticks, cooldown, k, r)
    ensures Spaced(ticks, cooldown, k + 1, r + if Opens(tr, ticks[k]) then [k] else [])
  {
  }

  lemma NothingSpaced(ticks: seq<Tick>, cooldown: int)
    ensures Spaced(ticks, cooldown, 0, [])
  {
  }

  /** Consecutive window resets are at least a cooldown apart. */
  lemma {:induction false} ResetsSpaced(ticks: seq<Tick>, cooldown: int, k: nat)
    requires Monotone(ticks) && k <= |ticks|
    ensures Spaced(ticks, cooldown, k, Resets(ticks, cooldown, k))
  {
    hide Record, Opens, Means, Spaced, Monotone;
    if k == 0 {
      assert Spaced(ticks, cooldown, 0, []) by { NothingSpaced(ticks, cooldown); }
    } else {
      ResetsSpaced(ticks, cooldown, k - 1);
      TrackerMeaning(ticks, cooldown, k - 1);
      SpacedStep(ticks, cooldown, k - 1, Resets(ticks, cooldown, k - 1), After(ticks, cooldown, k - 1));
    }
  }

  lemma {:induction false} ResetSpan(ticks: seq<Tick>, cooldown: int, r: seq<nat>, i: nat, j: nat)
    requires Spaced(ticks, cooldown, |ticks|, r) && i <= j < |r|
    ensures ticks[r[j]].reset - ticks[r[i]].reset >= (j - i) * cooldown
    decreases j
  {
    if i == j {
    } else {
      ResetSpan(ticks, cooldown, r, i, j - 1);
      assert (j - i) * cooldown == (j - 1 - i) * cooldown + cooldown;
    }
  }

  ghost predicate OpenedWithin(ticks: seq<Tick>, n: nat, begin: int, span: nat) {
    n < |ticks| && begin <= ticks[n].reset <= begin + span
  }

  /** Resets i to j of an event type, all within an interval of length span, are at
      most span / cooldown + 1 in number. */
  lemma ResetsPerInterval(ticks: seq<Tick>, cooldown: int, i: nat, j: nat, begin: int, span: nat)
    requires Monotone(ticks) && cooldown > 0 && i <= j < |Resets(ticks, cooldown, |ticks|)|
    requires forall n :: i <= n <= j ==> OpenedWithin(ticks, Resets(ticks, cooldown, |ticks|)[n], begin, span)
    ensures j - i + 1 <= span / cooldown + 1
  {
    ResetsSpaced(ticks, cooldown, |ticks|);
    ResetSpan(ticks, cooldown, Resets(ticks, cooldown, |ticks|), i, j);
    Quotient(j - i, cooldown, span);
  }

  lemma Quotient(n: int, d: int, m: nat)
    requires d > 0 && n * d <= m
    ensures n <= m / d
  {
    assert n * d < (m / d + 1) * d by {
      assert m == (m / d) * d + m % d;
      assert (m / d + 1) * d == (m / d) * d + d;
    }
    Cancel(n, m / d + 1, d);
  }

  lemma Cancel(n: int, k: int, d: int)
    requires d > 0 && n * d < k * d
    ensures n < k
  {
  }

  // ------------------------------------------------------------------------ event cache

  type Cache = map<string, int>   // correlation id to creation time

  /** `int(max * 0.1)` of the entries, the oldest, leave. */
  ghost predicate Evicts(cache: Cache, n: nat, victims: set<string>) {
    && victims <= cache.Keys
    && |victims| == (if n <= |cache| then n else |cache|)
    && forall v, k | v in victims && k in cache && k !in victims :: cache[v] <= cache[k]
  }

  ghost predicate Created(cache: Cache, id: string, now: int, max: nat, next: Cache) {
    if |cache| >= max then
      exists victims: set<string> :: Evicts(cache, max / 10, victims) && next == (cache - victims)[id := now]
    else
      next == cache[id := now]
  }

  /** At a limit of ten or more the oldest entry leaves, if there is one, and the newest
      stays, if there is one and another entry. */
  lemma OldestLeaves(cache: Cache, id: string, now: int, max: nat, next: Cache, k: string)
    requires Created(cache, id, now, max, next) && |cache| >= max >= 10 && k in cache && k != id
    ensures (forall j | j in cache && j != k :: cache[k] < cache[j]) ==> k !in next
    ensures max / 10 < |cache| && (forall j | j in cache && j != k :: cache[j] < cache[k]) ==> k in next
  {
    var victims: set<string> :| Evicts(cache, max / 10, victims) && next == (cache - victims)[id := now];
    if k !in victims {
      var v :| v in victims;
      assert cache[v] <= cache[k];
    } else if max / 10 < |cache| {
      assert victims != cache.Keys;
      var j :| j in cache && j !in victims;
      assert cache[k] <= cache[j];
    }
  }

  class EventCorrelationManager {
    const maxTracked: nat
    var events: Cache

    constructor (maxTracked: nat)
      ensures this.maxTracked == maxTracked && events == map[]
    {
      this.maxTracked, events := maxTracked, map[];
    }

    method CreateEventTracker(id: string, now: int)
      modifies this`events
      ensures Created(old(events), id, now, maxTracked, events)
    {
      if |events| >= maxTracked {
        var victims := Oldest(maxTracked / 10);
        events := events - victims;
      }
      events := events[id := now];
    }

    /** The first n ids in order of creation time. */
    method Oldest(n: nat) returns (victims: set<string>)
      ensures Evicts(events, n, victims)
    {
      victims := {};
      var rest := events;
      while |victims| < n && rest != map[]
        invariant victims <= events.Keys && rest == events - victims && |victims| <= n
        invariant forall v, k | v in victims && k in rest :: events[v] <= events[k]
        invariant |victims| + |rest| == |events|
        decreases |rest|
      {
        var v := Earliest(rest);
        assert rest.Keys - {v} == (rest - {v}).Keys;
        victims := victims + {v};
        rest := rest - {v};
      }
    }
  }

  method Earliest(cache: Cache) returns (v: string)
    requires cache != map[]
    ensures v in cache && forall k | k in cache :: cache[v] <= cache[k]
  {
    var keys := cache.Keys;
    v :| v in keys;
    keys := keys - {v};
    while keys != {}
      invariant v in cache && keys <= cache.Keys
      invariant forall k | k in cache && k !in keys :: cache[v] <= cache[k]
      decreases keys
    {
      var k :| k in keys;
      keys := keys - {k};
      if cache[k] < cache[v] { v := k; }
    }
  }

  ghost predicate CacheRun(caches: seq<Cache>, max: nat) {
    && |caches| >= 1 && caches[0] == map[]
    && forall i, j :: 0 <= i && j == i + 1 && j < |caches| ==> Grown(caches[i], max, caches[j])
  }

  ghost predicate Grown(cache: Cache, max: nat, next: Cache) {
    exists id: string, now: int :: Created(cache, id, now, max, next)
  }

  lemma CreateBounded(cache: Cache, id: string, now: int, max: nat, next: Cache)
    requires max >= 10 && |cache| <= max && Created(cache, id, now, max, next)
    ensures |next| <= max
  {
    if |cache| >= max {
      var victims: set<string> :| Evicts(cache, max / 10, victims) && next == (cache - victims)[id := now];
      assert (cache - victims).Keys == cache.Keys - victims;
      assert |cache.Keys - victims| == |cache| - |victims|;
      SizeAfterInsert(cache - victims, id, now);
    } else {
      SizeAfterInsert(cache, id, now);
    }
  }

  lemma SizeAfterInsert(cache: Cache, id: string, now: int)
    ensures |cache[id := now]| == if id in cache then |cache| else |cache| + 1
  {
    assert cache[id := now].Keys == cache.Keys + {id};
  }

  lemma {:induction false} RunBounded(caches: seq<Cache>, max: nat, n: nat)
    requires max >= 10 && CacheRun(caches, max) && n < |caches|
    ensures |caches[n]| <= max
  {
    if n == 0 {
    } else {
      RunBounded(caches, max, n - 1);
      assert Grown(caches[n - 1], max, caches[n]);
      var id: string, now: int :| Created(caches[n - 1], id, now, max, caches[n]);
      CreateBounded(caches[n - 1], id, now, max, caches[n]);
    }
  }

  function Name(n: nat): (s: string)
    ensures |s| == n
  {
    seq(n, i => 'e')
  }

  function Full(n: nat): (c: Cache)
    ensures |c| == n && forall k | k in c :: |k| < n
  {
    if n == 0 then map[] else
    var c := Full(n - 1);
    SizeAfterInsert(c, Name(n - 1), 0);
    c[Name(n - 1) := 0]
  }

  /** With a limit below ten nothing is ever evicted. */
  lemma NeverEvicts(max: nat, n: nat)
    requires max < 10
    ensures Created(Full(n), Name(n), 0, max, Full(n + 1))
  {
    assert Evicts(Full(n), 0, {});
    assert Full(n) - {} == Full(n);
  }

  lemma Unbounded(max: nat)
    requires max < 10
    ensures exists caches: seq<Cache>, n: nat :: CacheRun(caches, max) && n < |caches| && |caches[n]| > max
  {
    var caches := seq(max + 2, i requires 0 <= i => Full(i));
    forall i, j | 0 <= i && j == i + 1 && j < |caches| ensures Grown(caches[i], max, caches[j]) {
      NeverEvicts(max, i);
    }
    assert CacheRun(caches, max) && |caches[max + 1]| > max;
  }

  /** The cache keeps within its limit on every run exactly when the limit is at least
      ten: below that, a tenth of it rounds to nothing. */
  lemma CacheBoundedIff(max: nat)
    ensures (forall caches: seq<Cache>, n: nat :: CacheRun(caches, max) && n < |caches| ==> |caches[n]| <= max)
            <==> max >= 10
  {
    if max >= 10 {
      forall caches: seq<Cache>, n: nat | CacheRun(caches, max) && n < |caches| ensures |caches[n]| <= max {
        RunBounded(caches, max, n);
      }
    } else {
      Unbounded(max);
    }
  }
}
