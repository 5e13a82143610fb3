// Exponential backoff of the stream dead-letter queue.  The next retry time is computed
// from the clock reading made before the semaphore and the notifier, so readings are
// spaced by the full delay, while a dispatch may come earlier than that after the one
// that failed, by as much as that one lagged behind its reading.
module DeadLetterStreamBackoff {
  import opened Common
  import opened DeadLetterStream
  import opened DeadLetterStreamProofs
  import opened DeadLetterStreamSequential

  /** In every run a dispatch happens on a known channel, its reading not before its
      entry's retry time; and an entry that is itself a retry keeps message, channel and
      base of its parent, carries one attempt more, and was scheduled by a failed dispatch of that parent: their
      readings are at least base * 2^(attempts - 1) apart, and the dispatches by that
      much less the lag of the failed one. */
  lemma BackedOff(ys: seq<System>, actions: seq<Action>, maxRetries: int, n: nat, k: nat)
    requires IsRun(ys, actions, maxRetries) && n <= |actions| && k < |ys[n].state.dispatches|
    ensures Closed(ys[n].state)
    ensures
      var s := ys[n].state;
      var d := s.dispatches[k];
      var e := s.log[d.sid];
      && e.nextRetry <= d.read <= d.at && e.channel in {"slack", "discord", "telegram"}
      && (e.parent.Some? ==>
            && e.parent.value < d.sid
            && s.log[e.parent.value].msg == e.msg
            && s.log[e.parent.value].channel == e.channel && s.log[e.parent.value].base == e.base
            && e.attempts == s.log[e.parent.value].attempts + 1
            && exists j :: 0 <= j < |s.dispatches| && Schedules(s.dispatches[j], e, d))
  {
    RunKeeps(ys, actions, maxRetries, n);
    var s := ys[n].state;
    var d := s.dispatches[k];
    assert EntryOk(s, d.sid) && DispatchOk(ys[n], d);
    if s.log[d.sid].parent.Some? {
      var e := s.log[d.sid];
      var j :| 0 <= j < |s.dispatches| && IsFailure(s.dispatches[j], e.parent.value, e.scheduled);
      assert DispatchOk(ys[n], s.dispatches[j]);
      assert Schedules(s.dispatches[j], e, d);
    }
  }

  /** In every run all copies of a message go to one channel with one base delay, those
      it was published with; and a retry is due base * 2^(attempts - 1) after the clock
      reading of the dispatch that failed. */
  lemma RetryFields(ys: seq<System>, actions: seq<Action>, maxRetries: int, n: nat, i: Sid, j: Sid)
    requires IsRun(ys, actions, maxRetries) && n <= |actions| && i < |ys[n].state.log| && j < |ys[n].state.log|
    ensures var e, f := ys[n].state.log[i], ys[n].state.log[j];
      e.msg.id == f.msg.id ==> e.msg == f.msg && e.channel == f.channel && e.base == f.base
    ensures var e := ys[n].state.log[i];
      e.parent.Some? ==>
        && (e.attempts >= 1 ==> e.nextRetry - e.scheduled == e.base * Pow2(e.attempts - 1))
        && (e.attempts < 1 ==> (e.nextRetry - e.scheduled) * Pow2(1 - e.attempts) == e.base)
  {
    RunKeeps(ys, actions, maxRetries, n);
    assert EntryOk(ys[n].state, i);
    BackoffIs(ys[n].state.log[i].base, ys[n].state.log[i].attempts);
  }

  /** f failed on the parent of e, and the dispatch d of e is backed off from it. */
  ghost predicate Schedules(f: Dispatch, e: Fields, d: Dispatch)
    requires e.parent.Some?
  {
    && IsFailure(f, e.parent.value, e.scheduled)
    && d.read - f.read >= Backoff(e.base, e.attempts)
    && d.at - f.at >= Backoff(e.base, e.attempts) - (f.at - f.read)
  }

  // ----------------------------------------------- when the next dispatch is full spaced

  /** Whatever happens from y on, a dispatch of sid comes at `from` or later. */
  ghost predicate AlwaysFrom(y: System, maxRetries: int, sid: Sid, from: real) {
    forall actions: seq<Action>, z: System | Path(y, actions, maxRetries, z) :: DispatchedFrom(y, z, sid, from)
  }

  ghost predicate DispatchedFrom(y: System, z: System, sid: Sid, from: real) {
    forall k :: |y.state.dispatches| <= k < |z.state.dispatches| && z.state.dispatches[k].sid == sid ==>
      z.state.dispatches[k].at >= from
  }

  /** What any path keeps: log and dispatches only grow, the latter from now on. */
  ghost predicate Later(y: System, z: System) {
    && y.clock <= z.clock && y.state.log <= z.state.log && y.state.dispatches <= z.state.dispatches
    && forall k :: |y.state.dispatches| <= k < |z.state.dispatches| ==> z.state.dispatches[k].at >= y.clock
  }

  lemma StepLater(y: System, a: Action, maxRetries: int)
    requires Enabled(y, a)
    ensures Later(y, Take(y, a, maxRetries))
  {
  }

  lemma {:induction false} PathLater(y: System, actions: seq<Action>, maxRetries: int, z: System)
    requires Inv(y, maxRetries) && Path(y, actions, maxRetries, z)
    ensures Inv(z, maxRetries) && Later(y, z)
    decreases |actions|
  {
    hide Inv, Enabled, Take;
    if actions == [] {
    } else {
      StepKeeps(y, actions[0], maxRetries);
      StepLater(y, actions[0], maxRetries);
      PathLater(Take(y, actions[0], maxRetries), actions[1..], maxRetries, z);
    }
  }

  lemma {:induction false} FreshPid(pids: set<Pid>, n: nat) returns (pid: Pid)
    ensures pid >= n && pid !in pids
    decreases |pids|
  {
    if n in pids {
      pid := FreshPid(pids - {n}, n + 1);
    } else {
      pid := n;
    }
  }

  /** A live entry on a known channel can be dispatched the moment it is due. */
  lemma Redispatch(y: System, maxRetries: int, sid: Sid) returns (actions: seq<Action>, z: System)
    requires Inv(y, maxRetries) && sid in y.state.live && sid < |y.state.log| && KnownChannel(y.state.log[sid].channel)
    ensures Path(y, actions, maxRetries, z)
    ensures var due := MaxReal(y.clock, y.state.log[sid].nextRetry);
      z.state.dispatches == y.state.dispatches + [Dispatch(sid, due, due, false)]
  {
    var due := MaxReal(y.clock, y.state.log[sid].nextRetry);
    var pid := FreshPid(y.pcs.Keys, 0);
    var y1 := Take(y, Wait(due - y.clock), maxRetries);
    var y2 := Take(y1, Fetch(pid, sid), maxRetries);
    var y3 := Take(y2, Check(pid), maxRetries);
    z := Take(y3, Send(pid, false), maxRetries);
    hide Take, Inv;
    Prepend(y3, Send(pid, false), [], maxRetries, z);
    Prepend(y2, Check(pid), [Send(pid, false)] + [], maxRetries, z);
    Prepend(y1, Fetch(pid, sid), [Check(pid)] + ([Send(pid, false)] + []), maxRetries, z);
    actions := [Wait(due - y.clock)] + ([Fetch(pid, sid)] + ([Check(pid)] + ([Send(pid, false)] + [])));
    Prepend(y, Wait(due - y.clock), actions[1..], maxRetries, z);
    assert actions == [actions[0]] + actions[1..];
  }

  /** Every later dispatch of a live retry comes a full delay after the failed one that
      scheduled it, whatever happens, if and only if that one was made at its clock
      reading or the full delay is over already. */
  lemma DispatchSpacedIff(y: System, maxRetries: int, sid: Sid, j: nat)
    requires Inv(y, maxRetries) && sid in y.state.live && sid < |y.state.log| && KnownChannel(y.state.log[sid].channel)
    requires y.state.log[sid].parent.Some? && j < |y.state.dispatches|
    requires var e := y.state.log[sid]; IsFailure(y.state.dispatches[j], e.parent.value, e.scheduled)
    ensures var e, f := y.state.log[sid], y.state.dispatches[j];
      var full := f.at + Backoff(e.base, e.attempts);
      AlwaysFrom(y, maxRetries, sid, full) <==> f.at == f.read || y.clock >= full
  {
    var e, f := y.state.log[sid], y.state.dispatches[j];
    var full := f.at + Backoff(e.base, e.attempts);
    assert EntryOk(y.state, sid) && DispatchOk(y, f);
    hide Backoff, EntryOk, Eligible;
    if f.at == f.read || y.clock >= full {
      forall actions: seq<Action>, z: System | Path(y, actions, maxRetries, z)
        ensures DispatchedFrom(y, z, sid, full)
      {
        PathLater(y, actions, maxRetries, z);
        hide Inv;
        forall k | |y.state.dispatches| <= k < |z.state.dispatches| && z.state.dispatches[k].sid == sid
          ensures z.state.dispatches[k].at >= full
        {
          DispatchDue(z, maxRetries, k);
        }
      }
    } else {
      var actions, z := Redispatch(y, maxRetries, sid);
      var k := |y.state.dispatches|;
      assert z.state.dispatches[k].sid == sid && z.state.dispatches[k].at < full;
      assert !DispatchedFrom(y, z, sid, full);
    }
  }

  lemma DispatchDue(z: System, maxRetries: int, k: nat)
    requires Inv(z, maxRetries) && k < |z.state.dispatches|
    ensures z.state.dispatches[k].sid < |z.state.log|
    ensures z.state.log[z.state.dispatches[k].sid].nextRetry <= z.state.dispatches[k].at
  {
    assert DispatchOk(z, z.state.dispatches[k]);
  }

  // -------------------------------------------------------------- a slow first dispatch

  lemma {:induction false} PathAppend(y: System, a: seq<Action>, u: System, b: seq<Action>, maxRetries: int, z: System)
    requires Path(y, a, maxRetries, u) && Path(u, b, maxRetries, z)
    ensures Path(y, a + b, maxRetries, z)
    decreases |a|
  {
    hide Enabled, Take;
    if a == [] {
      assert a + b == b;
    } else {
      PathAppend(Take(y, a[0], maxRetries), a[1..], u, b, maxRetries, z);
      assert (a + b)[1..] == a[1..] + b;
    }
  }

  const FRESH := Published(7, "slack", 0, 60.0, 0.0, Some(0.0))

  /** With a base of sixty seconds: an entry read at zero waits a hundred seconds for the
      semaphore, fails, and is dispatched again at once, although the delay is sixty. */
  lemma LateDispatchExample() returns (ys: seq<System>, actions: seq<Action>)
    ensures IsRun(ys, actions, 5)
    ensures var s := ys[|actions|].state;
      && s.dispatches == [Dispatch(0, 0.0, 100.0, false), Dispatch(1, 100.0, 100.0, false)]
      && |s.log| == 3 && s.log[1] == Rescheduled(s.log[0], 0, 0.0)
      && Backoff(s.log[1].base, s.log[1].attempts) == 60.0
  {
    assert Pow2Int(0) == 1.0 && Backoff(60.0, 1) == 60.0;
    var z;
    actions, z := TwoReschedules(FRESH, 100.0);
    ys := PathRun(START, actions, 5, z);
    hide Take, Enabled;
  }

  lemma FirstPublish(e: Fields)
    requires e.attempts == e.msg.first && e.parent == None
    ensures Enabled(START, Publish(e, CLEAN))
    ensures Take(START, Publish(e, CLEAN), 5) == System(State([e], {0}, []), map[], 0.0)
  {
    AddEffects(START.state, e, CLEAN);
  }

  lemma TwoReschedules(e: Fields, lag: Duration) returns (actions: seq<Action>, z: System)
    requires e.attempts == e.msg.first <= 3 && e.parent == None && Eligible(e, 0.0)
    requires Eligible(Rescheduled(e, 0, 0.0), lag)
    ensures Path(START, actions, 5, z)
    ensures z.state.dispatches == [Dispatch(0, 0.0, lag, false), Dispatch(1, lag, lag, false)]
    ensures |z.state.log| == 3 && z.state.log[0] == e && z.state.log[1] == Rescheduled(e, 0, 0.0)
  {
    hide Take, Enabled, Eligible, Path;
    FirstPublish(e);
    var y1 := Take(START, Publish(e, CLEAN), 5);
    var first, y2 := OneReschedule(y1, 0, lag);
    var second;
    second, z := OneReschedule(y2, 1, 0.0);
    PathAppend(y1, first, y2, second, 5, z);
    Prepend(START, Publish(e, CLEAN), first + second, 5, z);
    actions := [Publish(e, CLEAN)] + (first + second);
  }

  lemma OneReschedule(y: System, sid: Sid, lag: Duration) returns (actions: seq<Action>, z: System)
    requires Closed(y.state) && |y.state.log| == sid + 1 && y.state.live == {sid} && PcOf(y, 0).Idle?
    requires Eligible(y.state.log[sid], y.clock) && y.state.log[sid].attempts + 1 <= 5
    ensures Path(y, actions, 5, z) && Closed(z.state) && PcOf(z, 0).Idle? && z.clock == y.clock + lag
    ensures z.state == State(y.state.log + [Rescheduled(y.state.log[sid], sid, y.clock)], {sid + 1},
                             y.state.dispatches + [Dispatch(sid, y.clock, y.clock + lag, false)])
  {
    var reply := Reply(false, CLEAN, CLEAN, lag);
    RescheduleOnly(y.state, sid, y.clock, lag);
    ProcessIsPath(y, 0, sid, y.clock, 5, reply);
    actions := Moves(y.state.log[sid], 0, sid, y.clock, 5, reply);
    z := Processed(y, 0, sid, y.clock, 5, reply);
    hide Process, Moves, Path, Rescheduled, Eligible;
  }

  /** A failed dispatch of the last and only entry of the stream. */
  lemma RescheduleOnly(s: State, sid: Sid, now: real, lag: Duration)
    requires Closed(s) && |s.log| == sid + 1 && s.live == {sid}
    requires Eligible(s.log[sid], now) && s.log[sid].attempts + 1 <= 5
    ensures var t := Process(s, sid, now, 5, Reply(false, CLEAN, CLEAN, lag));
      && Closed(t)
      && t == State(s.log + [Rescheduled(s.log[sid], sid, now)], {sid + 1},
                    s.dispatches + [Dispatch(sid, now, now + lag, false)])
  {
    ProcessCases(s, sid, now, 5, Reply(false, CLEAN, CLEAN, lag));
    var u := s.(dispatches := s.dispatches + [Dispatch(sid, now, now + lag, false)]);
    AddEffects(u, Rescheduled(s.log[sid], sid, now), CLEAN);
    hide Process, XAdd, Rescheduled, Eligible;
  }
}
