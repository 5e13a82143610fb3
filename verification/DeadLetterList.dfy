// The in-memory dead-letter queue of the orchestrator: `_dlq_retry_once` with
// Redis switched off, and the two producers that append fresh entries.
//
// A queued entry is a Python dict, shared by reference between the list and the
// snapshot a pass works on, and mutated in place.  The heap of dicts is made
// explicit: `heap[r]` is the content of the dict created r-th, and the list
// holds references.  The only suspension point of a pass is the database
// insert (no lock is ever held across one), so that is where appends from other
// tasks interleave; a `Reply` says what the insert did, who appended meanwhile and
// how long it took.  The clock runs on during inserts, but a pass reads it only once,
// at its start, and computes every retry time from that reading.
module DeadLetterList {
  import opened Common

  type Ref = nat

  datatype Entry = Entry(decision: nat, error: string, ts: int, attempts: nat, nextAttempt: real)

  /** What a producer supplies; attempts and next_attempt_ts start at zero. */
  datatype Arrival = Arrival(decision: nat, error: string, ts: int)

  datatype Insert = Stored | Raised(error: string)

  datatype Reply = Reply(insert: Insert, arrivals: seq<Arrival>, elapsed: Duration)

  datatype Config = Config(baseDelay: real, maxDelay: real, maxRetries: int)

  /** One insert: for which entry, the clock reading of its pass, and when it began. */
  datatype Try = Try(ref: Ref, passStart: real, at: real)

  /** The queue, the dicts, the history (inserts that succeeded, entries dropped at
      the cap, every insert attempted), and the time. */
  datatype State = State(
    queue: seq<Ref>, heap: seq<Entry>,
    stored: seq<Ref>, dropped: seq<Ref>, tries: seq<Try>, clock: real)

  ghost predicate Closed(s: State) {
    forall i :: 0 <= i < |s.queue| ==> s.queue[i] < |s.heap|
  }

  // ---------------------------------------------------------------- operations

  function Fresh(a: Arrival): Entry {
    Entry(a.decision, a.error, a.ts, 0, 0.0)
  }

  function Enqueue(s: State, a: Arrival): State {
    s.(queue := s.queue + [|s.heap|], heap := s.heap + [Fresh(a)])
  }

  function EnqueueAll(s: State, arrivals: seq<Arrival>): State
    decreases |arrivals|
  {
    if arrivals == [] then s else EnqueueAll(Enqueue(s, arrivals[0]), arrivals[1..])
  }

  /** The exponential delay after n + 1 failures, before it is capped. */
  function Doubled(base: real, n: nat): real {
    base * Pow2(n)
  }

  function Delay(cfg: Config, failures: nat): real
    requires failures >= 1
  {
    MinReal(cfg.maxDelay, Doubled(cfg.baseDelay, failures - 1))
  }

  /** Failed inserts after which an entry is dropped: the counter is compared
      with the setting only after it has been raised to at least one. */
  function Cap(cfg: Config): nat {
    if cfg.maxRetries < 1 then 1 else cfg.maxRetries
  }

  predicate Due(s: State, r: Ref, now: real)
    requires r < |s.heap|
  {
    s.heap[r].nextAttempt <= now
  }

  /** First slot, from i on, that is the dict r or carries the same `ts`. */
  function SlotOf(heap: seq<Entry>, q: seq<Ref>, r: Ref, i: nat): (k: nat)
    requires i <= |q| && r < |heap|
    requires forall j :: 0 <= j < |q| ==> q[j] < |heap|
    ensures i <= k <= |q|
    ensures k < |q| ==> q[k] == r || heap[q[k]].ts == heap[r].ts
    ensures forall j :: i <= j < k ==> q[j] != r && heap[q[j]].ts != heap[r].ts
    decreases |q| - i
  {
    if i == |q| || q[i] == r || heap[q[i]].ts == heap[r].ts then i
    else SlotOf(heap, q, r, i + 1)
  }

  /** First slot, from i on, whose dict compares equal to r: what `list.remove` looks for. */
  function EqualSlot(heap: seq<Entry>, q: seq<Ref>, r: Ref, i: nat): (k: nat)
    requires i <= |q| && r < |heap|
    requires forall j :: 0 <= j < |q| ==> q[j] < |heap|
    ensures i <= k <= |q|
    ensures k < |q| ==> heap[q[k]] == heap[r]
    ensures forall j :: i <= j < k ==> heap[q[j]] != heap[r]
    decreases |q| - i
  {
    if i == |q| || heap[q[i]] == heap[r] then i else EqualSlot(heap, q, r, i + 1)
  }

  function Without(q: seq<Ref>, i: nat): seq<Ref>
    requires i <= |q|
  {
    if i < |q| then q[..i] + q[i + 1..] else q
  }

  /** The update loop: r goes into the first slot that is r or has its `ts`. */
  function Placed(heap: seq<Entry>, q: seq<Ref>, r: Ref): (p: seq<Ref>)
    requires r < |heap| && forall j :: 0 <= j < |q| ==> q[j] < |heap|
    ensures |p| == |q| && forall j :: 0 <= j < |p| ==> p[j] < |heap|
  {
    var i := SlotOf(heap, q, r, 0);
    if i < |q| then q[i := r] else q
  }

  /** `list.remove(r)`, or nothing if no entry equals r. */
  function Removed(heap: seq<Entry>, q: seq<Ref>, r: Ref): (p: seq<Ref>)
    requires r < |heap| && forall j :: 0 <= j < |q| ==> q[j] < |heap|
    ensures forall j :: 0 <= j < |p| ==> p[j] < |heap|
  {
    Without(q, EqualSlot(heap, q, r, 0))
  }

  function Failed(e: Entry, error: string, now: real, cfg: Config): Entry {
    e.(attempts := e.attempts + 1, error := error, nextAttempt := now + Delay(cfg, e.attempts + 1))
  }

  /** The insert of r has failed: update, place, and drop at the cap. */
  function AfterFailure(s: State, r: Ref, error: string, now: real, cfg: Config): (t: State)
    requires Closed(s) && r < |s.heap|
    ensures Closed(t) && |s.heap| == |t.heap|
  {
    var e := Failed(s.heap[r], error, now, cfg);
    var heap := s.heap[r := e];
    var q := Placed(heap, s.queue, r);
    if e.attempts >= cfg.maxRetries then
      s.(heap := heap, queue := Removed(heap, q, r), dropped := s.dropped + [r])
    else
      s.(heap := heap, queue := q)
  }

  /** One iteration of the pass, for the snapshot entry r. */
  function Attempt(s: State, r: Ref, now: real, cfg: Config, reply: Reply): (t: State)
    requires Closed(s) && r < |s.heap|
    ensures Closed(t) && |s.heap| <= |t.heap|
  {
    if !Due(s, r, now) then s else
    EnqueueAllFacts(s, reply.arrivals);
    var tries := s.tries + [Try(r, now, s.clock)];
    var s := EnqueueAll(s, reply.arrivals).(tries := tries, clock := s.clock + reply.elapsed);
    match reply.insert
    case Stored =>
      s.(queue := Removed(s.heap, s.queue, r), stored := s.stored + [r])
    case Raised(error) => AfterFailure(s, r, error, now, cfg)
  }

  lemma NotDue(s: State, r: Ref, now: real, cfg: Config, reply: Reply)
    requires Closed(s) && r < |s.heap| && !Due(s, r, now)
    ensures Attempt(s, r, now, cfg, reply) == s
  {
  }

  /** The first k iterations of a pass over the snapshot s.queue, started at `now`. */
  function PassTo(s: State, script: seq<Reply>, now: real, cfg: Config, k: nat): (t: State)
    requires Closed(s) && k <= |s.queue| && |script| == |s.queue|
    ensures Closed(t) && |s.heap| <= |t.heap|
  {
    if k == 0 then s.(clock := now) else
    Attempt(PassTo(s, script, now, cfg, k - 1), s.queue[k - 1], now, cfg, script[k - 1])
  }

  function Pass(s: State, script: seq<Reply>, now: real, cfg: Config): State
    requires Closed(s) && |script| == |s.queue|
  {
    PassTo(s, script, now, cfg, |s.queue|)
  }

  lemma EnqueueAllFacts(s: State, arrivals: seq<Arrival>)
    requires Closed(s)
    ensures var t := EnqueueAll(s, arrivals);
      && Closed(t)
      && |t.heap| == |s.heap| + |arrivals|
      && s.heap <= t.heap
      && t.queue == s.queue + Range(|s.heap|, |t.heap|)
      && (forall i :: 0 <= i < |arrivals| ==> t.heap[|s.heap| + i] == Fresh(arrivals[i]))
      && t == s.(queue := t.queue, heap := t.heap)
    decreases |arrivals|
  {
    if arrivals == [] {
    } else {
      var u := Enqueue(s, arrivals[0]);
      EnqueueAllFacts(u, arrivals[1..]);
      var t := EnqueueAll(s, arrivals);
      RangeSplit(|s.heap|, |u.heap|, |t.heap|);
      assert Range(|s.heap|, |u.heap|) == [|s.heap|];
      assert u.queue + Range(|u.heap|, |t.heap|) == s.queue + Range(|s.heap|, |t.heap|);
      forall i | 0 <= i < |arrivals| ensures t.heap[|s.heap| + i] == Fresh(arrivals[i]) {
        if i > 0 { assert arrivals[i] == arrivals[1..][i - 1]; }
      }
    }
  }
}
