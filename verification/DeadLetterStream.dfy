// The Redis-stream dead-letter queue: `publish_deadletter`,
// `_process_deadletter_entry` and the cursor of `poll_deadletter_loop`.
//
// Stream ids grow, so an id is the index of an entry in the append-only `log` of
// everything ever added; `live` is what is still in the stream (no trimming).
// Every command goes through a wrapper that tries it twice, and an attempt that
// raises may or may not have reached the server: a `Fault` says what happened.
// The clock is read once, before the wait for the semaphore and the notifier; both
// the check of the retry time and the next retry time use that one reading.
module DeadLetterStream {
  import opened Common

  type Sid = nat

  /** A notification; `first` is the attempts value it was published with. */
  datatype Message = Message(id: nat, first: int)

  datatype Fields = Fields(
    msg: Message, channel: string, attempts: int, base: real,
    scheduled: real, nextRetry: real, parent: Option<Sid>)

  datatype Wire = Done | LostReply | Down
  datatype Fault = Fault(first: Wire, second: Wire)

  const CLEAN := Fault(Done, Done)

  /** A hand-over to the notifier: the clock reading it rests on, and when it was made. */
  datatype Dispatch = Dispatch(sid: Sid, read: real, at: real, ok: bool)

  datatype State = State(log: seq<Fields>, live: set<Sid>, dispatches: seq<Dispatch>)

  ghost predicate Closed(s: State) {
    && (forall i :: i in s.live ==> i < |s.log|)
    && (forall i :: 0 <= i < |s.dispatches| ==> s.dispatches[i].sid < |s.log|)
  }

  // ------------------------------------------------------------- redis commands

  /** How often the command took effect on the server. */
  function Effects(f: Fault): nat {
    (if f.first.Down? then 0 else 1)
    + (if f.first.Done? || f.second.Down? then 0 else 1)
  }

  /** Whether the wrapper returned instead of raising. */
  predicate Returned(f: Fault) {
    f.first.Done? || f.second.Done?
  }

  /** The n ids from lo on. */
  function NewSids(lo: nat, n: nat): (r: set<Sid>)
    ensures forall x :: x in r <==> lo <= x < lo + n
    ensures |r| == n
  {
    if n == 0 then {} else NewSids(lo, n - 1) + {lo + n - 1}
  }

  function XAdd(s: State, e: Fields, f: Fault): State {
    s.(log := s.log + Repeat(e, Effects(f)), live := s.live + NewSids(|s.log|, Effects(f)))
  }

  lemma AddEffects(s: State, e: Fields, f: Fault)
    ensures var t := XAdd(s, e, f);
      && t.dispatches == s.dispatches
      && (Effects(f) == 0 ==> t == s)
      && (Effects(f) == 1 ==> t.log == s.log + [e] && t.live == s.live + {|s.log|})
      && (Effects(f) == 2 ==> t.log == s.log + [e] + [e] && t.live == s.live + {|s.log|} + {|s.log| + 1})
  {
    NewSidsFew(|s.log|);
    hide NewSids;
  }

  lemma NewSidsFew(lo: nat)
    ensures NewSids(lo, 0) == {} && NewSids(lo, 1) == {lo} && NewSids(lo, 2) == {lo} + {lo + 1}
  {
  }

  function XDel(s: State, sid: Sid, f: Fault): State {
    if Effects(f) > 0 then s.(live := s.live - {sid}) else s
  }

  // ----------------------------------------------------------------- operations

  /** 2^k for any integer k. */
  function Pow2Int(k: int): real {
    if k >= 0 then Pow2(k) else 1.0 / Pow2(-k)
  }

  function Backoff(base: real, attempts: int): real {
    base * Pow2Int(attempts - 1)
  }

  lemma BackoffIs(base: real, attempts: int)
    ensures attempts >= 1 ==> Backoff(base, attempts) == base * Pow2(attempts - 1)
    ensures attempts < 1 ==> Backoff(base, attempts) * Pow2(1 - attempts) == base
  {
    if attempts < 1 {
      var p := Pow2(1 - attempts);
      Inverse(base, p);
    }
  }

  lemma Inverse(b: real, p: real)
    requires p >= 1.0
    ensures b * (1.0 / p) * p == b
  {
    assert (1.0 / p) * p == 1.0;
    assert b * (1.0 / p) * p == b * ((1.0 / p) * p);
  }

  function Published(id: nat, channel: string, attempts: int, base: real, now: real, at: Option<real>): Fields {
    Fields(Message(id, attempts), channel, attempts, base, now,
           if at.Some? then at.value else now + Backoff(base, attempts), None)
  }

  function Rescheduled(e: Fields, sid: Sid, now: real): Fields {
    e.(attempts := e.attempts + 1, scheduled := now,
       nextRetry := now + Backoff(e.base, e.attempts + 1), parent := Some(sid))
  }

  predicate KnownChannel(channel: string) {
    channel == "slack" || channel == "discord" || channel == "telegram"
  }

  predicate Eligible(e: Fields, now: real) {
    e.nextRetry <= now && KnownChannel(e.channel)
  }

  /** What the outside world did while one entry was processed; `lag` is the time
      from the reading of the clock to the hand-over. */
  datatype Reply = Reply(ok: bool, add: Fault, del: Fault, lag: Duration)

  /** Processing one entry without interruption. */
  function Process(s: State, sid: Sid, now: real, maxRetries: int, reply: Reply): State
    requires sid < |s.log|
  {
    var e := s.log[sid];
    if !Eligible(e, now) then s else
    var s := s.(dispatches := s.dispatches + [Dispatch(sid, now, now + reply.lag, reply.ok)]);
    if reply.ok || e.attempts + 1 > maxRetries then XDel(s, sid, reply.del) else
    var s := XAdd(s, Rescheduled(e, sid, now), reply.add);
    if Returned(reply.add) then XDel(s, sid, reply.del) else s
  }

  /** A retry f of the entry e, its time counted from the reading `now`. */
  ghost predicate IsRetry(f: Fields, e: Fields, sid: Sid, now: real) {
    && f.msg == e.msg && f.channel == e.channel && f.base == e.base
    && f.attempts == e.attempts + 1 && f.scheduled == now && f.parent == Some(sid)
    && (e.attempts >= 0 ==> f.nextRetry - now == e.base * Pow2(e.attempts))
    && (e.attempts < 0 ==> (f.nextRetry - now) * Pow2(-e.attempts) == e.base)
  }

  /** An entry is dispatched exactly when it is due on one of the three channels, and
      otherwise nothing happens; all that is ever added is retries of it. */
  lemma ProcessMeaning(s: State, sid: Sid, now: real, maxRetries: int, reply: Reply)
    requires sid < |s.log|
    ensures var e, t := s.log[sid], Process(s, sid, now, maxRetries, reply);
      && (if e.nextRetry <= now && e.channel in {"slack", "discord", "telegram"}
          then t.dispatches == s.dispatches + [Dispatch(sid, now, now + reply.lag, reply.ok)] else t == s)
      && s.log <= t.log
      && forall i :: |s.log| <= i < |t.log| ==> IsRetry(t.log[i], e, sid, now)
  {
    RescheduledIsRetry(s.log[sid], sid, now);
    hide IsRetry, Rescheduled, NewSids;
    var u := s.(dispatches := s.dispatches + [Dispatch(sid, now, now + reply.lag, reply.ok)]);
    var retry := Rescheduled(s.log[sid], sid, now);
    assert XAdd(u, retry, reply.add).log == s.log + Repeat(retry, Effects(reply.add));
    hide XAdd, Effects;
  }

  lemma RescheduledIsRetry(e: Fields, sid: Sid, now: real)
    ensures IsRetry(Rescheduled(e, sid, now), e, sid, now)
  {
    BackoffIs(e.base, e.attempts + 1);
    hide Backoff;
  }

  // ------------------------------------------------- many processors, step by step

  type Pid = nat

  /** Where a processor stands with the entry it fetched. */
  datatype Pc =
    | Idle
    | Fetched(sid: Sid)
    | Checked(sid: Sid, read: real)
    | Failed(sid: Sid, read: real)
    | Deleting(sid: Sid)

  datatype System = System(state: State, pcs: map<Pid, Pc>, clock: real)

  datatype Action =
    | Publish(entry: Fields, fault: Fault)
    | Fetch(pid: Pid, sid: Sid)
    | Check(pid: Pid)
    | Send(pid: Pid, ok: bool)
    | Readd(pid: Pid, fault: Fault)
    | Delete(pid: Pid, fault: Fault)
    | Crash(pid: Pid)
    | Wait(time: Duration)

  function PcOf(y: System, pid: Pid): Pc {
    if pid in y.pcs then y.pcs[pid] else Idle
  }

  ghost predicate Enabled(y: System, a: Action) {
    match a
    case Publish(e, _) => e.attempts == e.msg.first && e.parent == None
                          && forall i :: 0 <= i < |y.state.log| ==> y.state.log[i].msg.id != e.msg.id
    case Fetch(pid, sid) => PcOf(y, pid).Idle? && sid in y.state.live
    case Check(pid) => PcOf(y, pid).Fetched? && PcOf(y, pid).sid < |y.state.log|
    case Send(pid, _) => PcOf(y, pid).Checked? && PcOf(y, pid).sid < |y.state.log|
    case Readd(pid, _) => PcOf(y, pid).Failed? && PcOf(y, pid).sid < |y.state.log|
    case Delete(pid, _) => PcOf(y, pid).Deleting?
    case Crash(pid) => true
    case Wait(_) => true
  }

  ghost function Take(y: System, a: Action, maxRetries: int): System
    requires Enabled(y, a)
  {
    match a
    case Publish(e, f) => y.(state := XAdd(y.state, e, f))
    case Fetch(pid, sid) => y.(pcs := y.pcs[pid := Fetched(sid)])
    case Check(pid) =>
      var sid := PcOf(y, pid).sid;
      y.(pcs := y.pcs[pid := if Eligible(y.state.log[sid], y.clock) then Checked(sid, y.clock) else Idle])
    case Send(pid, ok) =>
      var Checked(sid, read) := PcOf(y, pid);
      var retired := ok || y.state.log[sid].attempts + 1 > maxRetries;
      y.(state := y.state.(dispatches := y.state.dispatches + [Dispatch(sid, read, y.clock, ok)]),
         pcs := y.pcs[pid := if retired then Deleting(sid) else Failed(sid, read)])
    case Readd(pid, f) =>
      var Failed(sid, read) := PcOf(y, pid);
      y.(state := XAdd(y.state, Rescheduled(y.state.log[sid], sid, read), f),
         pcs := y.pcs[pid := if Returned(f) then Deleting(sid) else Idle])
    case Delete(pid, f) =>
      y.(state := XDel(y.state, PcOf(y, pid).sid, f), pcs := y.pcs[pid := Idle])
    case Crash(pid) => y.(pcs := y.pcs[pid := Idle])
    case Wait(d) => y.(clock := y.clock + d)
  }

  // ---------------------------------------------------------------- the poll loop

  /** XRANGE: the first `count` live ids from `cursor` on, the cursor included. */
  function Batch(s: State, cursor: Sid, count: nat): (b: seq<Sid>)
    ensures forall i :: 0 <= i < |b| ==> cursor <= b[i] < |s.log|
    decreases |s.log| - cursor
  {
    if cursor >= |s.log| || count == 0 then []
    else if cursor in s.live then [cursor] + Batch(s, cursor + 1, count - 1)
    else Batch(s, cursor + 1, count)
  }

  /** The batch is in order, live, within the count, and leaves out a live id from the
      cursor on only if it is full and that id comes later. */
  lemma {:induction false} BatchMeaning(s: State, cursor: Sid, count: nat)
    ensures IsBatch(s, cursor, count, Batch(s, cursor, count))
    decreases |s.log| - cursor
  {
    if cursor >= |s.log| || count == 0 {
    } else {
      var n := if cursor in s.live then count - 1 else count;
      BatchMeaning(s, cursor + 1, n);
      BatchStep(s, cursor, count, Batch(s, cursor + 1, n));
    }
  }

  ghost predicate IsBatch(s: State, cursor: Sid, count: nat, b: seq<Sid>) {
    && |b| <= count && (forall i :: 0 <= i < |b| ==> cursor <= b[i] && b[i] in s.live)
    && (forall i, j :: 0 <= i < j < |b| ==> b[i] < b[j])
    && (forall x :: cursor <= x < |s.log| && x in s.live && x !in b ==> LeftOut(b, count, x))
  }

  ghost predicate LeftOut(b: seq<Sid>, count: nat, x: Sid) {
    |b| == count && forall i :: 0 <= i < |b| ==> b[i] < x
  }

  lemma BatchStep(s: State, cursor: Sid, count: nat, b: seq<Sid>)
    requires cursor < |s.log| && count > 0 && IsBatch(s, cursor + 1, if cursor in s.live then count - 1 else count, b)
    ensures IsBatch(s, cursor, count, if cursor in s.live then [cursor] + b else b)
  {
    if cursor in s.live {
      forall x | cursor <= x < |s.log| && x in s.live && x !in [cursor] + b ensures LeftOut([cursor] + b, count, x) {
        assert x != cursor && x !in b && LeftOut(b, count - 1, x) by { assert ([cursor] + b)[0] == cursor; }
      }
    }
  }

  /** One reading of the clock and the world's reply, per entry of a batch. */
  datatype Turn = Turn(now: real, reply: Reply)

  function PollTo(s: State, batch: seq<Sid>, turns: seq<Turn>, maxRetries: int, k: nat): (t: State)
    requires k <= |batch| == |turns| && forall i :: 0 <= i < |batch| ==> batch[i] < |s.log|
    ensures |s.log| <= |t.log|
  {
    if k == 0 then s else
    Process(PollTo(s, batch, turns, maxRetries, k - 1), batch[k - 1], turns[k - 1].now, maxRetries, turns[k - 1].reply)
  }

  /** The stream and the processor of one service instance. */
  class DeadLetterQueue {
    var log: seq<Fields>
    var live: set<Sid>
    var lastId: Sid
    ghost var dispatches: seq<Dispatch>

    ghost function View(): State
      reads this
    {
      State(log, live, dispatches)
    }

    constructor (startId: Sid)
      ensures View() == State([], {}, []) && lastId == startId
    {
      log, live, dispatches, lastId := [], {}, [], startId;
    }

    /** XADD through the wrapper, which tries at most twice. */
    method Add(e: Fields, f: Fault) returns (returned: bool)
      modifies this`log, this`live
      ensures View() == XAdd(old(View()), e, f) && returned == Returned(f)
      ensures forall i :: |old(log)| <= i < |log| ==> log[i] == e && i in live
      ensures returned <==> f.first == Done || f.second == Done
      ensures |log| - |old(log)| == match f.first
        case Done => 1
        case LostReply => (if f.second == Down then 1 else 2)
        case Down => (if f.second == Down then 0 else 1)
    {
      AddEffects(View(), e, f);
      hide XAdd;
      if !f.first.Down? { live, log := live + {|log|}, log + [e]; }
      returned := f.first.Done?;
      if !returned {
        if !f.second.Down? { live, log := live + {|log|}, log + [e]; }
        returned := f.second.Done?;
      }
    }

    method Del(sid: Sid, f: Fault)
      modifies this`live
      ensures View() == XDel(old(View()), sid, f)
    {
      if !f.first.Down? { live := live - {sid}; }
      if !f.first.Done? && !f.second.Down? { live := live - {sid}; }
    }

    /** `publish_deadletter`; the entry's id, or None when the wrapper raised. */
    method PublishDeadletter(id: nat, channel: string, attempts: int, base: real, now: real, at: Option<real>, f: Fault)
      returns (sid: Option<Sid>)
      modifies this`log, this`live
      ensures View() == XAdd(old(View()), Published(id, channel, attempts, base, now, at), f)
      ensures sid == if Returned(f) then Some(|log| - 1) else None
      ensures forall i :: |old(log)| <= i < |log| ==>
        && log[i].msg == Message(id, attempts) && log[i].channel == channel && log[i].attempts == attempts
        && log[i].base == base && log[i].scheduled == now && log[i].parent == None
        && (at.Some? ==> log[i].nextRetry == at.value)
        && (at.None? && attempts >= 1 ==> log[i].nextRetry - now == base * Pow2(attempts - 1))
        && (at.None? && attempts < 1 ==> (log[i].nextRetry - now) * Pow2(1 - attempts) == base)
    {
      BackoffIs(base, attempts);
      hide Pow2;
      var nextRetry := if at.Some? then at.value else now + base * Pow2Int(attempts - 1);
      var returned := Add(Fields(Message(id, attempts), channel, attempts, base, now, nextRetry, None), f);
      sid := if returned then Some(|log| - 1) else None;
    }

    method ProcessEntry(sid: Sid, now: real, maxRetries: int, reply: Reply)
      requires sid < |log|
      modifies this`log, this`live, this`dispatches
      ensures View() == Process(old(View()), sid, now, maxRetries, reply)
      ensures |old(log)| <= |log|
      ensures forall i :: |old(log)| <= i < |log| ==> IsRetry(log[i], old(log)[sid], sid, now)
    {
      ProcessMeaning(View(), sid, now, maxRetries, reply);
      hide IsRetry;
      var e := log[sid];
      if e.nextRetry > now || !KnownChannel(e.channel) {
        return;
      }
      dispatches := dispatches + [Dispatch(sid, now, now + reply.lag, reply.ok)];
      if reply.ok {
        Del(sid, reply.del);
      } else {
        var attempts := e.attempts + 1;
        if attempts > maxRetries {
          Del(sid, reply.del);
          return;
        }
        var nextRetry := now + e.base * Pow2Int(attempts - 1);
        var retry := Fields(e.msg, e.channel, attempts, e.base, now, nextRetry, Some(sid));
        assert retry == Rescheduled(e, sid, now);
        hide Rescheduled, XAdd, XDel;
        var added := Add(retry, reply.add);
        if added {
          Del(sid, reply.del);
        }
      }
    }

    /** One scan of the poll loop over the batch read from `lastId`, inclusive. */
    method PollOnce(maxBatch: nat, maxRetries: int, turns: seq<Turn>)
      requires |turns| == |Batch(View(), lastId, maxBatch)|
      modifies this
      ensures var batch := Batch(old(View()), old(lastId), maxBatch);
        && View() == PollTo(old(View()), batch, turns, maxRetries, |batch|)
        && lastId == if batch == [] then old(lastId) else batch[|batch| - 1]
    {
      hide Process, Batch;
      var batch := Batch(State(log, live, []), lastId, maxBatch);
      BatchIgnoresDispatches(View(), State(log, live, []), lastId, maxBatch);
      for k := 0 to |batch|
        invariant |old(log)| <= |log| && forall i :: 0 <= i < |batch| ==> batch[i] < |old(log)|
        invariant View() == PollTo(old(View()), batch, turns, maxRetries, k)
        invariant lastId == if k == 0 then old(lastId) else batch[k - 1]
      {
        ProcessEntry(batch[k], turns[k].now, maxRetries, turns[k].reply);
        assert View() == PollTo(old(View()), batch, turns, maxRetries, k + 1);
        lastId := batch[k];
      }
    }
  }

  lemma {:induction false} BatchIgnoresDispatches(s: State, t: State, cursor: Sid, count: nat)
    requires s.log == t.log && s.live == t.live
    ensures Batch(s, cursor, count) == Batch(t, cursor, count)
    decreases |s.log| - cursor
  {
    if cursor >= |s.log| || count == 0 {
    } else {
      BatchIgnoresDispatches(s, t, cursor + 1, if cursor in s.live then count - 1 else count);
    }
  }
}
