// Two processors holding one entry, as when the command-line retries read what the
// poll loop is processing: the quota of dispatches is safe exactly when nobody reads
// an entry that somebody holds.
module DeadLetterStreamOverlap {
  import opened Common
  import opened DeadLetterStream
  import opened DeadLetterStreamProofs
  import opened DeadLetterStreamRedelivery

  // ------------------------------------------------------------------------ clean paths

  ghost predicate CleanPath(y: System, actions: seq<Action>, maxRetries: int, z: System)
    decreases |actions|
  {
    if actions == [] then y == z
    else
      && Enabled(y, actions[0]) && Clean(y, actions[0])
      && CleanPath(Take(y, actions[0], maxRetries), actions[1..], maxRetries, z)
  }

  lemma CleanEnd(z: System, maxRetries: int)
    ensures CleanPath(z, [], maxRetries, z)
  {
  }

  ghost predicate CleanTake(y: System, a: Action, maxRetries: int, u: System) {
    Enabled(y, a) && Clean(y, a) && u == Take(y, a, maxRetries)
  }

  lemma CleanPrepend(y: System, a: Action, u: System, rest: seq<Action>, maxRetries: int, z: System)
    requires CleanTake(y, a, maxRetries, u) && CleanPath(u, rest, maxRetries, z)
    ensures CleanPath(y, [a] + rest, maxRetries, z)
  {
    assert ([a] + rest)[1..] == rest;
  }

  lemma {:induction false} CleanAppend(
    y: System, a: seq<Action>, u: System, b: seq<Action>, maxRetries: int, z: System)
    requires CleanPath(y, a, maxRetries, u) && CleanPath(u, b, maxRetries, z)
    ensures CleanPath(y, a + b, maxRetries, z)
    decreases |a|
  {
    hide Enabled, Clean, Take;
    if a == [] {
      assert a + b == b;
    } else {
      CleanAppend(Take(y, a[0], maxRetries), a[1..], u, b, maxRetries, z);
      assert (a + b)[0] == a[0] && (a + b)[1..] == a[1..] + b;
    }
  }

  ghost predicate WithinQuota(s: State, m: Message, maxRetries: int) {
    Closed(s) && Tally(s.log, s.dispatches, m, false) <= Quota(m.first, maxRetries)
  }

  /** Along every clean path from y, m is dispatched no more often than its quota. */
  ghost predicate BoundSurvives(y: System, m: Message, maxRetries: int) {
    forall actions: seq<Action>, z: System | CleanPath(y, actions, maxRetries, z) :: WithinQuota(z.state, m, maxRetries)
  }

  lemma {:induction false} CleanPathKeeps(y: System, actions: seq<Action>, maxRetries: int, z: System, i: Sid)
    requires CleanInv(y, maxRetries) && CleanPath(y, actions, maxRetries, z) && i < |y.state.log|
    ensures WithinQuota(z.state, y.state.log[i].msg, maxRetries)
    decreases |actions|
  {
    if actions == [] {
      assert Settled(y, y.state.log[i].msg, maxRetries);
    } else {
      CleanStep(y, actions[0], maxRetries);
      LogGrows(y, actions[0], maxRetries);
      hide Take, Enabled, Clean, CleanInv, WithinQuota;
      CleanPathKeeps(Take(y, actions[0], maxRetries), actions[1..], maxRetries, z, i);
    }
  }

  // ---------------------------------------------------------- what one holder can still do

  ghost predicate FetchedAt(y: System, p: Pid, sid: Sid) {
    p in y.pcs && y.pcs[p] == Fetched(sid) && sid < |y.state.log| && KnownChannel(y.state.log[sid].channel)
  }

  /** Only the processor p has moved, the log is as it was, and m has one more dispatch. */
  ghost predicate OneMore(y: System, z: System, p: Pid, m: Message) {
    && Closed(y.state) && Closed(z.state)
    && z.state.log == y.state.log && z.state.live == y.state.live
    && p in z.pcs && z.pcs == y.pcs[p := z.pcs[p]]
    && Tally(z.state.log, z.state.dispatches, m, false) == Tally(y.state.log, y.state.dispatches, m, false) + 1
  }

  lemma WaitDue(y: System, sid: Sid, maxRetries: int) returns (a: Action, z: System)
    requires Inv(y, maxRetries) && sid < |y.state.log| && KnownChannel(y.state.log[sid].channel)
    ensures CleanTake(y, a, maxRetries, z) && Inv(z, maxRetries)
    ensures z.state == y.state && z.pcs == y.pcs && Eligible(z.state.log[sid], z.clock)
  {
    a := Wait(MaxReal(y.clock, y.state.log[sid].nextRetry) - y.clock);
    StepKeeps(y, a, maxRetries);
    z := Take(y, a, maxRetries);
    hide Inv;
  }

  lemma CheckOnce(y: System, p: Pid, sid: Sid, maxRetries: int) returns (z: System)
    requires Inv(y, maxRetries) && FetchedAt(y, p, sid) && Eligible(y.state.log[sid], y.clock)
    ensures CleanTake(y, Check(p), maxRetries, z) && Inv(z, maxRetries)
    ensures z.state == y.state && z.pcs == y.pcs[p := Checked(sid, y.clock)]
  {
    StepKeeps(y, Check(p), maxRetries);
    z := Take(y, Check(p), maxRetries);
    hide Inv, Eligible;
  }

  lemma SendOnce(y: System, p: Pid, sid: Sid, maxRetries: int) returns (z: System)
    requires Inv(y, maxRetries) && p in y.pcs && y.pcs[p].Checked? && y.pcs[p].sid == sid < |y.state.log|
    ensures CleanTake(y, Send(p, false), maxRetries, z) && Inv(z, maxRetries)
    ensures OneMore(y, z, p, y.state.log[sid].msg)
    ensures if y.state.log[sid].attempts + 1 > maxRetries then z.pcs[p] == Deleting(sid)
      else z.pcs[p].Failed? && z.pcs[p].sid == sid
  {
    var s := y.state;
    assert Closed(s);
    StepKeeps(y, Send(p, false), maxRetries);
    z := Take(y, Send(p, false), maxRetries);
    assert Closed(z.state);
    hide Inv;
    TallyAppend(s.log, s.dispatches, Dispatch(sid, y.pcs[p].read, y.clock, false), s.log[sid].msg, false);
  }

  /** A holder waits until its entry is due, checks it, and dispatches it in vain. */
  lemma OneTurn(y: System, p: Pid, sid: Sid, maxRetries: int) returns (actions: seq<Action>, z: System)
    requires Inv(y, maxRetries) && FetchedAt(y, p, sid)
    ensures CleanPath(y, actions, maxRetries, z) && Inv(z, maxRetries)
    ensures OneMore(y, z, p, y.state.log[sid].msg)
    ensures if y.state.log[sid].attempts + 1 > maxRetries then z.pcs[p] == Deleting(sid)
      else z.pcs[p].Failed? && z.pcs[p].sid == sid
  {
    hide Inv, CleanTake, CleanPath, Eligible;
    var wait, y1 := WaitDue(y, sid, maxRetries);
    var y2 := CheckOnce(y1, p, sid, maxRetries);
    z := SendOnce(y2, p, sid, maxRetries);
    assert y.pcs[p := z.pcs[p]] == z.pcs;
    CleanEnd(z, maxRetries);
    CleanPrepend(y2, Send(p, false), z, [], maxRetries, z);
    CleanPrepend(y1, Check(p), y2, [Send(p, false)] + [], maxRetries, z);
    CleanPrepend(y, wait, y1, [Check(p)] + ([Send(p, false)] + []), maxRetries, z);
    actions := [wait] + ([Check(p)] + ([Send(p, false)] + []));
  }

  lemma ReaddOnce(y: System, p: Pid, sid: Sid, maxRetries: int) returns (z: System)
    requires Inv(y, maxRetries) && p in y.pcs && y.pcs[p].Failed? && y.pcs[p].sid == sid < |y.state.log|
    ensures CleanTake(y, Readd(p, CLEAN), maxRetries, z) && Inv(z, maxRetries)
    ensures Replaces(y, z, p, sid, Rescheduled(y.state.log[sid], sid, y.pcs[p].read))
  {
    assert Closed(y.state);
    StepKeeps(y, Readd(p, CLEAN), maxRetries);
    z := Take(y, Readd(p, CLEAN), maxRetries);
    hide Inv, Take, Replaces, Rescheduled;
    ReaddClean(y, Readd(p, CLEAN), maxRetries);
  }

  lemma DeleteOnce(y: System, p: Pid, maxRetries: int) returns (z: System)
    requires Inv(y, maxRetries) && p in y.pcs && y.pcs[p].Deleting?
    ensures CleanTake(y, Delete(p, CLEAN), maxRetries, z) && Inv(z, maxRetries)
    ensures z.state == y.state.(live := y.state.live - {y.pcs[p].sid}) && z.pcs == y.pcs[p := Idle]
  {
    StepKeeps(y, Delete(p, CLEAN), maxRetries);
    z := Take(y, Delete(p, CLEAN), maxRetries);
    hide Inv;
  }

  lemma FetchOnce(y: System, p: Pid, sid: Sid, maxRetries: int) returns (z: System)
    requires Inv(y, maxRetries) && PcOf(y, p).Idle? && sid in y.state.live && Clean(y, Fetch(p, sid))
    ensures CleanTake(y, Fetch(p, sid), maxRetries, z) && Inv(z, maxRetries)
    ensures z.state == y.state && z.pcs == y.pcs[p := Fetched(sid)]
  {
    StepKeeps(y, Fetch(p, sid), maxRetries);
    z := Take(y, Fetch(p, sid), maxRetries);
    hide Inv;
  }

  /** The holder that failed reschedules its entry, deletes it, and fetches the successor. */
  lemma Renew(y: System, p: Pid, sid: Sid, maxRetries: int) returns (actions: seq<Action>, z: System)
    requires Inv(y, maxRetries) && p in y.pcs && y.pcs[p].Failed? && y.pcs[p].sid == sid < |y.state.log|
    ensures CleanPath(y, actions, maxRetries, z) && Inv(z, maxRetries) && p in z.pcs
    ensures z.pcs[p] == Fetched(|y.state.log|) && z.state.dispatches == y.state.dispatches
    ensures exists read :: z.state.log == y.state.log + [Rescheduled(y.state.log[sid], sid, read)]
  {
    var j := |y.state.log|;
    var y1 := ReaddOnce(y, p, sid, maxRetries);
    hide Inv, CleanTake, CleanPath, Rescheduled;
    var y2 := DeleteOnce(y1, p, maxRetries);
    NobodyAhead(y, p, y2, maxRetries);
    hide Clean;
    z := FetchOnce(y2, p, j, maxRetries);
    CleanEnd(z, maxRetries);
    CleanPrepend(y2, Fetch(p, j), z, [], maxRetries, z);
    CleanPrepend(y1, Delete(p, CLEAN), y2, [Fetch(p, j)] + [], maxRetries, z);
    CleanPrepend(y, Readd(p, CLEAN), y1, [Delete(p, CLEAN)] + ([Fetch(p, j)] + []), maxRetries, z);
    actions := [Readd(p, CLEAN)] + ([Delete(p, CLEAN)] + ([Fetch(p, j)] + []));
  }

  /** Nobody can hold an entry just written. */
  lemma NobodyAhead(y: System, p: Pid, z: System, maxRetries: int)
    requires Inv(y, maxRetries) && p in z.pcs && z.pcs == y.pcs[p := Idle]
    ensures Clean(z, Fetch(p, |y.state.log|))
  {
    forall q | q in z.pcs ensures !Holds(z, q, |y.state.log|) {
      assert q != p ==> q in y.pcs && PcOk(y, q, maxRetries);
    }
  }

  /** An entry with attempts k, in the hands of one processor, can be dispatched
      Quota(k) more times although nothing fails. */
  lemma {:induction false} Chain(y: System, q: Pid, sid: Sid, maxRetries: int) returns (actions: seq<Action>, z: System)
    requires Inv(y, maxRetries) && FetchedAt(y, q, sid)
    ensures CleanPath(y, actions, maxRetries, z) && Closed(z.state)
    ensures var m := y.state.log[sid].msg;
      Tally(z.state.log, z.state.dispatches, m, false)
      == Tally(y.state.log, y.state.dispatches, m, false) + Quota(y.state.log[sid].attempts, maxRetries)
    decreases Quota(y.state.log[sid].attempts, maxRetries)
  {
    hide Enabled, Clean, Take, CleanPath;
    var k, m := y.state.log[sid].attempts, y.state.log[sid].msg;
    var turn, u := OneTurn(y, q, sid, maxRetries);
    if k + 1 > maxRetries {
      actions, z := turn, u;
    } else {
      var renew, v := Renew(u, q, sid, maxRetries);
      assert Closed(v.state);
      TallyFrame(u.state.log, v.state.log, u.state.dispatches, m, false);
      hide Inv;
      var rest;
      rest, z := Chain(v, q, |u.state.log|, maxRetries);
      CleanAppend(u, renew, v, rest, maxRetries, z);
      CleanAppend(y, turn, u, renew + rest, maxRetries, z);
      actions := turn + (renew + rest);
    }
  }

  // --------------------------------------------------------- exactly when the quota holds

  ghost predicate Held(y: System, sid: Sid) {
    exists p | p in y.pcs :: Holds(y, p, sid)
  }

  /** The system once q has read sid, whoever holds it. */
  ghost function Read(y: System, q: Pid, sid: Sid): System {
    y.(pcs := y.pcs[q := Fetched(sid)])
  }

  lemma HolderQuota(y: System, p: Pid, sid: Sid, maxRetries: int)
    requires CleanInv(y, maxRetries) && p in y.pcs && Holds(y, p, sid) && sid < |y.state.log|
    ensures Closed(y.state)
    ensures var m, pc := y.state.log[sid].msg, y.pcs[p];
      var n := Tally(y.state.log, y.state.dispatches, m, false);
      HadTurn(y, m, sid, if pc.Failed? || pc.Deleting? then n else n + 1, maxRetries)
  {
    var m := y.state.log[sid].msg;
    assert Settled(y, m, maxRetries) && Exclusive(y) && Closed(y.state);
    hide Inv, CleanInv, Tally, Delivered, SomeActive, Closed;
    if y.pcs[p].Deleting? {
      assert Condemned(y, m, sid);
    } else {
      HeldActive(y, p);
    }
  }

  /** A holder that has not dispatched the entry yet does so once, while q holds it too. */
  lemma HolderTurn(y: System, q: Pid, p: Pid, sid: Sid, maxRetries: int) returns (actions: seq<Action>, z: System)
    requires Inv(y, maxRetries) && FetchedAt(y, q, sid) && p != q && p in y.pcs && Holds(y, p, sid)
    requires !y.pcs[p].Failed? && !y.pcs[p].Deleting?
    ensures CleanPath(y, actions, maxRetries, z) && Inv(z, maxRetries) && FetchedAt(z, q, sid)
    ensures OneMore(y, z, p, y.state.log[sid].msg)
  {
    hide Inv, CleanPath, CleanTake, Tally, Closed;
    if y.pcs[p].Checked? {
      z := SendOnce(y, p, sid, maxRetries);
      CleanEnd(z, maxRetries);
      CleanPrepend(y, Send(p, false), z, [], maxRetries, z);
      actions := [Send(p, false)] + [];
    } else {
      actions, z := OneTurn(y, p, sid, maxRetries);
    }
  }

  lemma ReadKeeps(y: System, q: Pid, sid: Sid, maxRetries: int)
    requires Inv(y, maxRetries) && PcOf(y, q).Idle? && sid in y.state.live && sid < |y.state.log|
    ensures Enabled(y, Fetch(q, sid)) && Take(y, Fetch(q, sid), maxRetries) == Read(y, q, sid)
    ensures Inv(Read(y, q, sid), maxRetries)
  {
    StepKeeps(y, Fetch(q, sid), maxRetries);
    hide Inv;
  }

  /** Both holders dispatch the entry, then the second reader goes on to the end. */
  lemma BothTurns(y: System, q: Pid, p: Pid, sid: Sid, maxRetries: int) returns (actions: seq<Action>, z: System)
    requires Inv(y, maxRetries) && FetchedAt(y, q, sid) && p != q && p in y.pcs && Holds(y, p, sid)
    ensures CleanPath(y, actions, maxRetries, z) && Closed(y.state) && Closed(z.state)
    ensures var m := y.state.log[sid].msg;
      Tally(z.state.log, z.state.dispatches, m, false)
      == Tally(y.state.log, y.state.dispatches, m, false) + Quota(y.state.log[sid].attempts, maxRetries)
         + if y.pcs[p].Failed? || y.pcs[p].Deleting? then 0 else 1
  {
    assert Closed(y.state);
    hide Inv, CleanPath, Tally, Closed, FetchedAt, Holds;
    if y.pcs[p].Failed? || y.pcs[p].Deleting? {
      actions, z := Chain(y, q, sid, maxRetries);
    } else {
      var turn, u := HolderTurn(y, q, p, sid, maxRetries);
      var rest;
      rest, z := Chain(u, q, sid, maxRetries);
      CleanAppend(y, turn, u, rest, maxRetries, z);
      actions := turn + rest;
    }
  }

  /** A second reader of an entry that is held can take its message over the quota,
      whatever the quota is and wherever the first holder stands. */
  lemma OverlapExceeds(y: System, q: Pid, p: Pid, sid: Sid, maxRetries: int)
    returns (actions: seq<Action>, z: System)
    requires CleanInv(y, maxRetries) && PcOf(y, q).Idle? && p in y.pcs && Holds(y, p, sid)
    requires sid in y.state.live && sid < |y.state.log| && KnownChannel(y.state.log[sid].channel)
    ensures CleanPath(Read(y, q, sid), actions, maxRetries, z)
    ensures !WithinQuota(z.state, y.state.log[sid].msg, maxRetries)
  {
    hide Inv, Exclusive, Settled, Enabled, Take, CleanPath, Tally, Quota, Closed;
    assert Inv(y, maxRetries);
    ReadKeeps(y, q, sid, maxRetries);
    HolderQuota(y, p, sid, maxRetries);
    hide CleanInv;
    actions, z := BothTurns(Read(y, q, sid), q, p, sid, maxRetries);
  }

  /** In every state of a clean run: when an idle processor reads a live entry on a known
      channel, its message stays within its quota whatever happens afterwards without a
      failure, a crash or another overlap, if and only if no processor holds the entry. */
  lemma OverlapIff(ys: seq<System>, actions: seq<Action>, maxRetries: int, n: nat, q: Pid, sid: Sid)
    requires CleanRun(ys, actions, maxRetries) && n <= |actions|
    requires PcOf(ys[n], q).Idle? && sid in ys[n].state.live && sid < |ys[n].state.log|
    requires KnownChannel(ys[n].state.log[sid].channel)
    ensures Enabled(ys[n], Fetch(q, sid))
    ensures BoundSurvives(Take(ys[n], Fetch(q, sid), maxRetries), ys[n].state.log[sid].msg, maxRetries)
            <==> !Held(ys[n], sid)
  {
    var y := ys[n];
    var y' := Read(y, q, sid);
    CleanRunInv(ys, actions, maxRetries, n);
    ReadKeeps(y, q, sid, maxRetries);
    hide CleanInv, CleanPath, WithinQuota;
    if Held(y, sid) {
      var p :| p in y.pcs && Holds(y, p, sid);
      var more, z := OverlapExceeds(y, q, p, sid, maxRetries);
      assert !BoundSurvives(y', y.state.log[sid].msg, maxRetries);
    } else {
      CleanStep(y, Fetch(q, sid), maxRetries);
      forall more: seq<Action>, z: System | CleanPath(y', more, maxRetries, z)
        ensures WithinQuota(z.state, y.state.log[sid].msg, maxRetries)
      {
        CleanPathKeeps(y', more, maxRetries, z, sid);
      }
    }
  }

  // ----------------------------------------------------------------------- a small run

  /** The command-line retries may read an entry that the poll loop holds. */
  const READS: seq<Action> :=
    [Fetch(0, 0)] + ([Fetch(1, 0)] + ([Check(0)] + ([Check(1)] + ([Send(0, false)] + ([Send(1, false)] + [])))))

  /** Then, although nothing fails, an entry whose quota is one is dispatched twice. */
  lemma OverlapExample(e: Fields) returns (ys: seq<System>)
    requires e.attempts == e.msg.first == 1 && e.parent == None && Eligible(e, 0.0)
    ensures IsRun(ys, [Publish(e, CLEAN)] + READS, 1) && Quota(e.msg.first, 1) == 1
    ensures var s := ys[|ys| - 1].state;
      Closed(s) && Tally(s.log, s.dispatches, e.msg, false) == 2
  {
    var s := State([e], {0}, []);
    AddEffects(START.state, e, CLEAN);
    var y1 := Take(START, Publish(e, CLEAN), 1);
    assert y1 == System(s, map[], 0.0);
    var z := OverlapReaders(y1, e);
    hide Take, Path;
    Prepend(START, Publish(e, CLEAN), READS, 1, z);
    ys := PathRun(START, [Publish(e, CLEAN)] + READS, 1, z);
  }

  lemma OverlapReaders(y: System, e: Fields) returns (z: System)
    requires y == System(State([e], {0}, []), map[], 0.0) && e.attempts == 1 && Eligible(e, 0.0)
    ensures Path(y, READS, 1, z)
    ensures Closed(z.state) && Tally(z.state.log, z.state.dispatches, e.msg, false) == 2
  {
    hide Path, Eligible;
    var y1 := Take(y, Fetch(0, 0), 1);
    var y2 := Take(y1, Fetch(1, 0), 1);
    var y3 := Take(y2, Check(0), 1);
    var y4 := Take(y3, Check(1), 1);
    var y5 := Take(y4, Send(0, false), 1);
    z := Take(y5, Send(1, false), 1);
    var d := Dispatch(0, 0.0, 0.0, false);
    assert z.state == State([e], {0}, [d] + [d]);
    TallyAppend([e], [d], d, e.msg, false);
    TallyAppend([e], [], d, e.msg, false);
    EmptyPath(z, 1);
    var sends := [Send(0, false)] + ([Send(1, false)] + []);
    Prepend(y5, Send(1, false), [], 1, z);
    Prepend(y4, Send(0, false), [Send(1, false)] + [], 1, z);
    Prepend(y3, Check(1), sends, 1, z);
    Prepend(y2, Check(0), [Check(1)] + sends, 1, z);
    Prepend(y1, Fetch(1, 0), [Check(0)] + ([Check(1)] + sends), 1, z);
    Prepend(y, Fetch(0, 0), [Fetch(1, 0)] + ([Check(0)] + ([Check(1)] + sends)), 1, z);
  }
}
