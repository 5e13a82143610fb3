// One processor at a time: the atomic `Process` is a path of the protocol, what it
// does to the number of copies of a message, and what the cursor of the poll loop
// never comes back to.
module DeadLetterStreamSequential {
  import opened Common
  import opened DeadLetterStream
  import opened DeadLetterStreamProofs

  // ------------------------------------------------------ Process refines the protocol

  /** The steps one processor takes on the entry sid when nobody interferes. */
  ghost function Moves(e: Fields, pid: Pid, sid: Sid, now: real, maxRetries: int, reply: Reply): seq<Action> {
    [Fetch(pid, sid)] + ([Check(pid)] +
    if !Eligible(e, now) then [] else [Wait(reply.lag)] + ([Send(pid, reply.ok)] + Settling(e, pid, maxRetries, reply)))
  }

  ghost function Settling(e: Fields, pid: Pid, maxRetries: int, reply: Reply): seq<Action> {
    if reply.ok || e.attempts + 1 > maxRetries then [Delete(pid, reply.del)] + []
    else if Returned(reply.add) then [Readd(pid, reply.add)] + ([Delete(pid, reply.del)] + [])
    else [Readd(pid, reply.add)] + []
  }

  ghost function Processed(y: System, pid: Pid, sid: Sid, now: real, maxRetries: int, reply: Reply): System
    requires sid < |y.state.log|
  {
    System(Process(y.state, sid, now, maxRetries, reply), y.pcs[pid := Idle],
           if Eligible(y.state.log[sid], now) then now + reply.lag else now)
  }

  /** Processing one live entry without interruption is a path of protocol steps, so
      every protocol guarantee holds of it too. */
  lemma ProcessIsPath(y: System, pid: Pid, sid: Sid, now: real, maxRetries: int, reply: Reply)
    requires Closed(y.state) && sid in y.state.live && PcOf(y, pid).Idle? && y.clock == now
    ensures sid < |y.state.log|
    ensures Path(y, Moves(y.state.log[sid], pid, sid, now, maxRetries, reply), maxRetries,
                 Processed(y, pid, sid, now, maxRetries, reply))
  {
    hide Eligible, Effects, XAdd, XDel, Rescheduled, Path;
    var e := y.state.log[sid];
    var z := Processed(y, pid, sid, now, maxRetries, reply);
    var y1 := Take(y, Fetch(pid, sid), maxRetries);
    var y2 := Take(y1, Check(pid), maxRetries);
    assert y1.pcs[pid := Idle] == z.pcs && y1.pcs[pid := Checked(sid, now)] == y.pcs[pid := Checked(sid, now)];
    if !Eligible(e, now) {
      assert y2 == z;
      EmptyPath(z, maxRetries);
      Prepend(y1, Check(pid), [], maxRetries, z);
    } else {
      SendIsPath(y2.(clock := now + reply.lag), y.pcs, pid, sid, now, maxRetries, reply, z);
      var sends := [Send(pid, reply.ok)] + Settling(e, pid, maxRetries, reply);
      Prepend(y2, Wait(reply.lag), sends, maxRetries, z);
      Prepend(y1, Check(pid), [Wait(reply.lag)] + sends, maxRetries, z);
    }
    var rest := if !Eligible(e, now) then [] else
      [Wait(reply.lag)] + ([Send(pid, reply.ok)] + Settling(e, pid, maxRetries, reply));
    Prepend(y, Fetch(pid, sid), [Check(pid)] + rest, maxRetries, z);
  }

  lemma SendIsPath(
    y: System, pcs: map<Pid, Pc>, pid: Pid, sid: Sid, now: real, maxRetries: int, reply: Reply, z: System)
    requires sid < |y.state.log| && Eligible(y.state.log[sid], now)
    requires y.pcs == pcs[pid := Checked(sid, now)] && y.clock == now + reply.lag
    requires z == System(Process(y.state, sid, now, maxRetries, reply), pcs[pid := Idle], y.clock)
    ensures Path(y, [Send(pid, reply.ok)] + Settling(y.state.log[sid], pid, maxRetries, reply), maxRetries, z)
  {
    hide Eligible, Effects, XAdd, XDel, Rescheduled, Path;
    var e, send := y.state.log[sid], Send(pid, reply.ok);
    var y1 := Take(y, send, maxRetries);
    EmptyPath(z, maxRetries);
    if reply.ok || e.attempts + 1 > maxRetries {
      assert Take(y1, Delete(pid, reply.del), maxRetries).pcs == z.pcs;
      Prepend(y1, Delete(pid, reply.del), [], maxRetries, z);
    } else {
      var readd := Readd(pid, reply.add);
      var y2 := Take(y1, readd, maxRetries);
      if Returned(reply.add) {
        assert Take(y2, Delete(pid, reply.del), maxRetries).pcs == z.pcs;
        Prepend(y2, Delete(pid, reply.del), [], maxRetries, z);
        Prepend(y1, readd, [Delete(pid, reply.del)] + [], maxRetries, z);
      } else {
        assert y2.pcs == z.pcs;
        Prepend(y1, readd, [], maxRetries, z);
      }
    }
    Prepend(y, send, Settling(e, pid, maxRetries, reply), maxRetries, z);
  }

  // -------------------------------------------------------------------------- copies

  ghost function Copies(s: State, m: Message): set<Sid>
    requires Closed(s)
  {
    set i | i in s.live && s.log[i].msg == m
  }

  ghost predicate Retires(e: Fields, maxRetries: int, reply: Reply) {
    reply.ok || e.attempts + 1 > maxRetries
  }

  /** Copies written and removed while an eligible entry is processed. */
  ghost function Written(e: Fields, maxRetries: int, reply: Reply): nat {
    if Retires(e, maxRetries, reply) then 0 else Effects(reply.add)
  }

  ghost function Removed(e: Fields, maxRetries: int, reply: Reply): nat {
    if (Retires(e, maxRetries, reply) || Returned(reply.add)) && Effects(reply.del) > 0 then 1 else 0
  }

  ghost function Gone(e: Fields, sid: Sid, maxRetries: int, reply: Reply): set<Sid> {
    if Removed(e, maxRetries, reply) == 1 then {sid} else {}
  }

  /** What processing the eligible entry sid does, in closed form. */
  ghost predicate Effect(s: State, sid: Sid, now: real, maxRetries: int, reply: Reply, t: State)
    requires Closed(s) && sid < |s.log|
  {
    var e := s.log[sid];
    var n := Written(e, maxRetries, reply);
    && t.dispatches == s.dispatches + [Dispatch(sid, now, now + reply.lag, reply.ok)]
    && t.log == s.log + Repeat(Rescheduled(e, sid, now), n)
    && t.live == s.live + NewSids(|s.log|, n) - Gone(e, sid, maxRetries, reply)
    && Closed(t)
  }

  lemma ProcessCases(s: State, sid: Sid, now: real, maxRetries: int, reply: Reply)
    requires sid < |s.log| && Eligible(s.log[sid], now)
    ensures var e := s.log[sid];
      var u := s.(dispatches := s.dispatches + [Dispatch(sid, now, now + reply.lag, reply.ok)]);
      var v := XAdd(u, Rescheduled(e, sid, now), reply.add);
      Process(s, sid, now, maxRetries, reply)
      == if Retires(e, maxRetries, reply) then XDel(u, sid, reply.del)
         else if Returned(reply.add) then XDel(v, sid, reply.del)
         else v
  {
    hide XAdd, XDel, Rescheduled, Effects;
  }

  lemma ProcessEffect(s: State, sid: Sid, now: real, maxRetries: int, reply: Reply)
    requires Closed(s) && sid < |s.log| && Eligible(s.log[sid], now)
    ensures Effect(s, sid, now, maxRetries, reply, Process(s, sid, now, maxRetries, reply))
  {
    ProcessCases(s, sid, now, maxRetries, reply);
    var e, f := s.log[sid], Rescheduled(s.log[sid], sid, now);
    var u := s.(dispatches := s.dispatches + [Dispatch(sid, now, now + reply.lag, reply.ok)]);
    var v := XAdd(u, f, reply.add);
    if Retires(e, maxRetries, reply) {
      DelEffect(u, sid, reply.del);
      hide Process, XAdd, XDel, Eligible, Rescheduled, Effects, Returned;
      Assemble(s, u, f, sid, 0, Gone(e, sid, maxRetries, reply));
    } else {
      DelEffect(v, sid, reply.del);
      var n := Effects(reply.add);
      assert v == State(s.log + Repeat(f, n), s.live + NewSids(|s.log|, n), u.dispatches);
      hide Process, XAdd, XDel, Repeat, NewSids, Eligible, Rescheduled, Effects, Returned;
      Assemble(s, u, f, sid, n, Gone(e, sid, maxRetries, reply));
    }
  }

  lemma Assemble(s: State, u: State, f: Fields, sid: Sid, n: nat, gone: set<Sid>)
    requires Closed(u) && u.log == s.log && u.live == s.live
    ensures Closed(State(s.log + Repeat(f, n), s.live + NewSids(|s.log|, n) - gone, u.dispatches))
    ensures n == 0 ==> s.log + Repeat(f, n) == s.log && s.live + NewSids(|s.log|, n) == s.live
    ensures gone == {} ==> s.live + NewSids(|s.log|, n) - gone == s.live + NewSids(|s.log|, n)
  {
  }

  lemma DelEffect(s: State, sid: Sid, f: Fault)
    ensures XDel(s, sid, f) == s.(live := s.live - if Effects(f) > 0 then {sid} else {})
  {
  }

  /** Processing changes the number of copies by exactly written minus removed; so it
      grows only if XADD took effect twice, or once while the old entry stayed. */
  lemma ProcessCopies(s: State, sid: Sid, now: real, maxRetries: int, reply: Reply)
    requires Closed(s) && sid in s.live && Eligible(s.log[sid], now)
    ensures Closed(Process(s, sid, now, maxRetries, reply))
    ensures var e := s.log[sid];
      var t := Process(s, sid, now, maxRetries, reply);
      && |Copies(t, e.msg)| == |Copies(s, e.msg)| + Written(e, maxRetries, reply) - Removed(e, maxRetries, reply)
      && (|Copies(t, e.msg)| > |Copies(s, e.msg)| <==>
            !Retires(e, maxRetries, reply)
            && (|| Effects(reply.add) == 2
                || (Effects(reply.add) == 1 && !(Returned(reply.add) && Effects(reply.del) > 0))))
  {
    ProcessEffect(s, sid, now, maxRetries, reply);
    CopiesChange(s, sid, now, maxRetries, reply, Process(s, sid, now, maxRetries, reply));
  }

  lemma CopiesChange(s: State, sid: Sid, now: real, maxRetries: int, reply: Reply, t: State)
    requires Closed(s) && sid in s.live && Effect(s, sid, now, maxRetries, reply, t)
    ensures var e := s.log[sid];
      |Copies(t, e.msg)| == |Copies(s, e.msg)| + Written(e, maxRetries, reply) - Removed(e, maxRetries, reply)
  {
    var e := s.log[sid];
    var added := NewSids(|s.log|, Written(e, maxRetries, reply));
    var gone := Gone(e, sid, maxRetries, reply);
    assert Copies(t, e.msg) == Copies(s, e.msg) + added - gone;
    assert Copies(s, e.msg) !! added;
    assert gone <= Copies(s, e.msg);
  }

  // -------------------------------------------------------------------- the poll loop

  ghost predicate LeavesAlone(s: State, t: State, x: Sid) {
    && Closed(t) && s.log <= t.log && s.dispatches <= t.dispatches
    && (x in t.live <==> x in s.live)
    && forall i :: |s.dispatches| <= i < |t.dispatches| ==> t.dispatches[i].sid != x
  }

  lemma ProcessLeaves(s: State, t: State, sid: Sid, turn: Turn, maxRetries: int, x: Sid)
    requires Closed(s) && x < |s.log| && LeavesAlone(s, t, x) && sid < |t.log|
    requires sid == x ==> !Eligible(s.log[x], turn.now)
    ensures LeavesAlone(s, Process(t, sid, turn.now, maxRetries, turn.reply), x)
  {
    if Eligible(t.log[sid], turn.now) {
      ProcessEffect(t, sid, turn.now, maxRetries, turn.reply);
    }
  }

  /** A scan leaves alone what it does not read, and what it skips as too early. */
  lemma {:induction false} PollLeaves(s: State, batch: seq<Sid>, turns: seq<Turn>, maxRetries: int, k: nat, x: Sid)
    requires Closed(s) && k <= |batch| == |turns| && x < |s.log|
    requires forall i :: 0 <= i < |batch| ==>
      batch[i] < |s.log| && (batch[i] == x ==> !Eligible(s.log[x], turns[i].now))
    ensures LeavesAlone(s, PollTo(s, batch, turns, maxRetries, k), x)
  {
    hide Process;
    if k == 0 {
    } else {
      PollLeaves(s, batch, turns, maxRetries, k - 1, x);
      ProcessLeaves(s, PollTo(s, batch, turns, maxRetries, k - 1), batch[k - 1], turns[k - 1], maxRetries, x);
    }
  }

  ghost function NextCursor(s: State, cursor: Sid, maxBatch: nat): Sid {
    var batch := Batch(s, cursor, maxBatch);
    if batch == [] then cursor else batch[|batch| - 1]
  }

  /** The loop: each scan reads its batch from the cursor that the last one left.  What
      the stream looks like at each reading is up to everybody at work on it. */
  ghost predicate IsLoop(streams: seq<State>, cursors: seq<Sid>, maxBatch: nat) {
    && |cursors| == |streams| + 1
    && forall i :: 0 <= i < |streams| ==>
         Closed(streams[i]) && cursors[i + 1] == NextCursor(streams[i], cursors[i], maxBatch)
  }

  lemma {:induction false} CursorGrows(streams: seq<State>, cursors: seq<Sid>, maxBatch: nat, i: nat, j: nat)
    requires IsLoop(streams, cursors, maxBatch) && i <= j <= |streams|
    ensures cursors[i] <= cursors[j]
    decreases j
  {
    if i == j {
    } else {
      CursorGrows(streams, cursors, maxBatch, i, j - 1);
      assert cursors[j - 1 + 1] == NextCursor(streams[j - 1], cursors[j - 1], maxBatch);
    }
  }

  /** Once the cursor has passed an entry, no later scan reads it, whoever else is at
      work on the stream, and so none dispatches or removes it. */
  lemma CursorNeverReturns(streams: seq<State>, cursors: seq<Sid>, maxBatch: nat, i: nat, j: nat, x: Sid,
                           turns: seq<Turn>, maxRetries: int)
    requires IsLoop(streams, cursors, maxBatch) && i <= j < |streams| && x < cursors[i] && x < |streams[j].log|
    requires |turns| == |Batch(streams[j], cursors[j], maxBatch)|
    ensures cursors[i] <= cursors[j]
    ensures var batch := Batch(streams[j], cursors[j], maxBatch);
      x !in batch && LeavesAlone(streams[j], PollTo(streams[j], batch, turns, maxRetries, |batch|), x)
  {
    CursorGrows(streams, cursors, maxBatch, i, j);
    PollLeaves(streams[j], Batch(streams[j], cursors[j], maxBatch), turns, maxRetries, |turns|, x);
  }

  ghost predicate ReadAfter(streams: seq<State>, cursors: seq<Sid>, maxBatch: nat, i: nat, x: Sid)
    requires IsLoop(streams, cursors, maxBatch)
  {
    exists j :: i < j < |streams| && x in Batch(streams[j], cursors[j], maxBatch)
  }

  /** An entry read at position k of a batch, too early or else still live at the next
      scan, is read again by some later scan if and only if it was the last of its
      batch.  If too early, its own scan leaves it alone. */
  lemma ReadAgainIff(streams: seq<State>, cursors: seq<Sid>, maxBatch: nat, i: nat, k: nat,
                     turns: seq<Turn>, maxRetries: int)
    requires IsLoop(streams, cursors, maxBatch) && i + 1 < |streams|
    requires |turns| == |Batch(streams[i], cursors[i], maxBatch)| && k < |turns|
    ensures var s, batch := streams[i], Batch(streams[i], cursors[i], maxBatch);
      && (batch[k] in streams[i + 1].live ==>
            (ReadAfter(streams, cursors, maxBatch, i, batch[k]) <==> k == |batch| - 1))
      && (!Eligible(s.log[batch[k]], turns[k].now) ==>
            LeavesAlone(s, PollTo(s, batch, turns, maxRetries, |batch|), batch[k]))
  {
    var s, batch := streams[i], Batch(streams[i], cursors[i], maxBatch);
    var x := batch[k];
    BatchMeaning(s, cursors[i], maxBatch);
    assert cursors[i + 1] == batch[|batch| - 1];
    if !Eligible(s.log[x], turns[k].now) {
      PollLeaves(s, batch, turns, maxRetries, |batch|, x);
    }
    if x in streams[i + 1].live {
      if k == |batch| - 1 {
        assert x in Batch(streams[i + 1], cursors[i + 1], maxBatch);
      } else {
        forall j | i < j < |streams| ensures x !in Batch(streams[j], cursors[j], maxBatch) {
          CursorGrows(streams, cursors, maxBatch, i + 1, j);
        }
      }
    }
  }

  ghost predicate ReadsOther(batch: seq<Sid>, cursor: Sid) {
    exists i :: 0 <= i < |batch| && batch[i] != cursor
  }

  ghost predicate SomeBehind(s: State, cursor: Sid) {
    exists x :: cursor < x && x in s.live
  }

  /** A scan moves the cursor if and only if its batch holds an id other than the cursor:
      that is, if and only if there is a live id behind it, and room for one after the
      cursor's own entry, which is read first as long as it is live. */
  lemma CursorMovesIff(s: State, cursor: Sid, maxBatch: nat)
    requires Closed(s)
    ensures var moved := NextCursor(s, cursor, maxBatch) != cursor;
      && (moved <==> ReadsOther(Batch(s, cursor, maxBatch), cursor))
      && (moved <==> SomeBehind(s, cursor) && maxBatch > if cursor in s.live then 1 else 0)
  {
    var batch := Batch(s, cursor, maxBatch);
    BatchMeaning(s, cursor, maxBatch);
    hide Batch;
    if |batch| >= 2 {
      assert batch[|batch| - 1] >= batch[1] > cursor;
      BatchRoom(s, cursor, maxBatch, batch, 1);
    } else if |batch| == 1 && batch[0] != cursor {
      BatchRoom(s, cursor, maxBatch, batch, 0);
    } else {
      if x :| cursor < x && x in s.live {
        assert x !in batch && LeftOut(batch, maxBatch, x);
        assert |batch| == 1 ==> batch[0] in s.live;
      }
    }
  }

  lemma BatchRoom(s: State, cursor: Sid, maxBatch: nat, batch: seq<Sid>, i: nat)
    requires Closed(s) && IsBatch(s, cursor, maxBatch, batch) && i < |batch| && batch[i] > cursor
    ensures SomeBehind(s, cursor) && maxBatch > if cursor in s.live then 1 else 0
  {
    assert batch[i] in s.live;
    if cursor in s.live {
      assert !LeftOut(batch, maxBatch, cursor);
      assert cursor in batch;
    }
  }

  /** With batches of one, a loop whose cursor stands on an entry that stays live reads
      that entry for ever and never reaches a later one. */
  lemma {:induction false} StuckAtOne(streams: seq<State>, cursors: seq<Sid>, i: nat, j: nat)
    requires IsLoop(streams, cursors, 1) && i <= j < |streams|
    requires forall k :: i <= k <= j ==> cursors[i] in streams[k].live
    ensures cursors[j + 1] == cursors[i] && Batch(streams[j], cursors[j], 1) == [cursors[i]]
    decreases j
  {
    if i == j {
    } else {
      StuckAtOne(streams, cursors, i, j - 1);
    }
    var x, s := cursors[i], streams[j];
    CursorMovesIff(s, x, 1);
    assert cursors[j] == x && x in s.live && x < |s.log|;
    assert Batch(s, x, 1) == [x] + Batch(s, x + 1, 0);
  }

  function EligibleCount(s: State, batch: seq<Sid>, turns: seq<Turn>, k: nat): (n: nat)
    requires k <= |batch| == |turns| && forall i :: 0 <= i < |batch| ==> batch[i] < |s.log|
    ensures n <= k
    ensures n == k <==> forall i :: 0 <= i < k ==> Eligible(s.log[batch[i]], turns[i].now)
  {
    if k == 0 then 0 else
    EligibleCount(s, batch, turns, k - 1) + if Eligible(s.log[batch[k - 1]], turns[k - 1].now) then 1 else 0
  }

  ghost predicate Dispatched(s: State, t: State, n: nat) {
    Closed(t) && s.log <= t.log && |t.dispatches| == |s.dispatches| + n
  }

  lemma DispatchStep(s: State, t: State, n: nat, sid: Sid, now: real, maxRetries: int, reply: Reply)
    requires Closed(s) && Dispatched(s, t, n) && sid < |s.log|
    ensures Dispatched(s, Process(t, sid, now, maxRetries, reply), n + if Eligible(s.log[sid], now) then 1 else 0)
  {
    if Eligible(s.log[sid], now) {
      ProcessEffect(t, sid, now, maxRetries, reply);
    }
  }

  lemma {:induction false} BatchDispatches(s: State, batch: seq<Sid>, turns: seq<Turn>, maxRetries: int, k: nat)
    requires Closed(s) && k <= |batch| == |turns| && forall i :: 0 <= i < |batch| ==> batch[i] < |s.log|
    ensures Dispatched(s, PollTo(s, batch, turns, maxRetries, k), EligibleCount(s, batch, turns, k))
  {
    if k == 0 {
    } else {
      BatchDispatches(s, batch, turns, maxRetries, k - 1);
      DispatchStep(s, PollTo(s, batch, turns, maxRetries, k - 1), EligibleCount(s, batch, turns, k - 1),
                   batch[k - 1], turns[k - 1].now, maxRetries, turns[k - 1].reply);
    }
  }

  /** The command-line retries hand every selected entry to the same processor and
      count it as retried; all of them are in fact dispatched exactly when each was
      due on a known channel at its turn: the retry time is not overridden. */
  lemma CountedRetriesDispatchIff(s: State, batch: seq<Sid>, turns: seq<Turn>, maxRetries: int)
    requires Closed(s) && |batch| == |turns| && forall i :: 0 <= i < |batch| ==> batch[i] < |s.log|
    ensures var t := PollTo(s, batch, turns, maxRetries, |batch|);
      |t.dispatches| == |s.dispatches| + |batch| <==>
        forall i :: 0 <= i < |batch| ==> Eligible(s.log[batch[i]], turns[i].now)
  {
    BatchDispatches(s, batch, turns, maxRetries, |batch|);
  }

  /** An entry due in a minute: the retry is counted, nothing is dispatched. */
  lemma CountedRetryExample(turn: Turn)
    requires turn.now == 0.0
    ensures var s := State([Published(7, "slack", 1, 60.0, 0.0, None)], {0}, []);
      Closed(s) && PollTo(s, [0], [turn], 5, 1) == s
  {
    assert Pow2Int(0) == 1.0;
    var s := State([Published(7, "slack", 1, 60.0, 0.0, None)], {0}, []);
    assert PollTo(s, [0], [turn], 5, 0) == s;
  }
}
