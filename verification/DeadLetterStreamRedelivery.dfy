// How often a message is dispatched when no command fails and no processor crashes.
// Any number of processors may be at work, as long as none takes an entry that
// another one still holds; without that the bound fails.
module DeadLetterStreamRedelivery {
  import opened Common
  import opened DeadLetterStream
  import opened DeadLetterStreamProofs

  ghost predicate Holds(y: System, pid: Pid, sid: Sid) {
    !PcOf(y, pid).Idle? && PcOf(y, pid).sid == sid
  }

  /** Nothing fails, and nothing is taken that a processor already holds. */
  ghost predicate Clean(y: System, a: Action) {
    match a
    case Publish(_, f) => f == CLEAN
    case Fetch(_, sid) => forall p | p in y.pcs :: !Holds(y, p, sid)
    case Readd(_, f) => f == CLEAN
    case Delete(_, f) => f == CLEAN
    case Crash(_) => false
    case _ => true
  }

  ghost predicate CleanRun(ys: seq<System>, actions: seq<Action>, maxRetries: int) {
    IsRun(ys, actions, maxRetries) && forall i :: 0 <= i < |actions| ==> Clean(ys[i], actions[i])
  }

  // ---------------------------------------------------------------- the invariant

  /** Some processor is about to delete the entry. */
  ghost predicate Doomed(y: System, i: Sid) {
    exists p | p in y.pcs :: y.pcs[p] == Deleting(i)
  }

  /** Some processor has dispatched the entry in vain and is about to reschedule it. */
  ghost predicate Spent(y: System, i: Sid) {
    exists p | p in y.pcs :: y.pcs[p].Failed? && y.pcs[p].sid == i
  }

  /** The copy of m that will be dispatched or rescheduled next. */
  ghost predicate Active(y: System, m: Message, i: Sid)
    requires Closed(y.state)
  {
    i in y.state.live && y.state.log[i].msg == m && !Doomed(y, i)
  }

  ghost predicate SomeActive(y: System, m: Message)
    requires Closed(y.state)
  {
    exists i :: Active(y, m, i)
  }

  /** At most one copy is active, and it has used up exactly the dispatches that its
      attempts count says, or one more before it is rescheduled; a copy about to be
      deleted has had its turn; a message without an active copy was delivered or has
      had its full quota. */
  ghost predicate Settled(y: System, m: Message, maxRetries: int)
    requires Closed(y.state)
  {
    var s := y.state;
    var n := Tally(s.log, s.dispatches, m, false);
    && n <= Quota(m.first, maxRetries)
    && (forall i, j :: Active(y, m, i) && Active(y, m, j) ==> i == j)
    && (forall i :: Active(y, m, i) ==> Used(y, m, i, n, maxRetries))
    && (forall i :: Condemned(y, m, i) ==> HadTurn(y, m, i, n, maxRetries))
    && (SomeActive(y, m) || Delivered(s, m) || n == Quota(m.first, maxRetries))
  }

  ghost predicate Used(y: System, m: Message, i: Sid, n: int, maxRetries: int)
    requires i < |y.state.log|
  {
    n + Quota(y.state.log[i].attempts, maxRetries) == Quota(m.first, maxRetries) + if Spent(y, i) then 1 else 0
  }

  ghost predicate Condemned(y: System, m: Message, i: Sid) {
    i < |y.state.log| && y.state.log[i].msg == m && Doomed(y, i)
  }

  ghost predicate HadTurn(y: System, m: Message, i: Sid, n: int, maxRetries: int)
    requires i < |y.state.log|
  {
    n + Quota(y.state.log[i].attempts, maxRetries) > Quota(m.first, maxRetries)
  }

  /** Every entry held is live, and held once. */
  ghost predicate Exclusive(y: System) {
    && (forall p | p in y.pcs && !y.pcs[p].Idle? :: y.pcs[p].sid in y.state.live)
    && (forall p, q | p in y.pcs && q in y.pcs && p != q && !y.pcs[p].Idle? && !y.pcs[q].Idle? ::
          y.pcs[p].sid != y.pcs[q].sid)
  }

  ghost predicate CleanInv(y: System, maxRetries: int) {
    && Inv(y, maxRetries) && Exclusive(y)
    && forall i :: 0 <= i < |y.state.log| ==> Settled(y, y.state.log[i].msg, maxRetries)
  }

  // ------------------------------------------------------------------ frame lemmas

  /** Only the processor pid has moved, and not to or from the entry i. */
  ghost predicate Elsewhere(y: System, z: System, pid: Pid, i: Sid) {
    && pid in z.pcs && z.pcs == y.pcs[pid := z.pcs[pid]]
    && !Settles(PcOf(y, pid), i) && !Settles(z.pcs[pid], i)
  }

  /** Only the processor pid has moved, with the entry sid in its hands. */
  ghost predicate OnlyAt(y: System, z: System, pid: Pid, sid: Sid) {
    && pid in z.pcs && z.pcs == y.pcs[pid := z.pcs[pid]]
    && (PcOf(y, pid).Idle? || PcOf(y, pid).sid == sid) && (z.pcs[pid].Idle? || z.pcs[pid].sid == sid)
  }

  ghost predicate Settles(pc: Pc, i: Sid) {
    (pc.Failed? || pc.Deleting?) && pc.sid == i
  }

  lemma ElsewhereSame(y: System, z: System, pid: Pid, i: Sid)
    requires Elsewhere(y, z, pid, i)
    ensures (Doomed(y, i) <==> Doomed(z, i)) && (Spent(y, i) <==> Spent(z, i))
  {
    forall p | p in y.pcs && Settles(y.pcs[p], i) ensures p in z.pcs && z.pcs[p] == y.pcs[p] { }
    forall p | p in z.pcs && Settles(z.pcs[p], i) ensures p in y.pcs && y.pcs[p] == z.pcs[p] { }
  }

  lemma SettledFrame(y: System, z: System, m: Message, maxRetries: int)
    requires Extends(y.state, z.state) && Settled(y, m, maxRetries)
    requires Tally(z.state.log, z.state.dispatches, m, false) == Tally(y.state.log, y.state.dispatches, m, false)
    requires forall i :: Active(y, m, i) <==> Active(z, m, i)
    requires forall i :: Active(y, m, i) ==> (Spent(y, i) <==> Spent(z, i))
    requires forall i :: Condemned(z, m, i) ==> Condemned(y, m, i)
    ensures Settled(z, m, maxRetries)
  {
    DeliveredGrows(y.state, z.state, m);
    hide Doomed, Spent, Tally, Delivered;
    if SomeActive(y, m) {
      var i :| Active(y, m, i);
      assert Active(z, m, i);
    }
    var n := Tally(z.state.log, z.state.dispatches, m, false);
    forall i: Sid | Active(z, m, i) ensures Used(z, m, i, n, maxRetries) {
      assert Active(y, m, i) && z.state.log[i] == y.state.log[i];
    }
    forall i: Sid | Condemned(z, m, i) ensures HadTurn(z, m, i, n, maxRetries) {
      assert Condemned(y, m, i) && z.state.log[i] == y.state.log[i];
    }
  }

  lemma DeliveredGrows(s: State, t: State, m: Message)
    requires Extends(s, t)
    ensures Delivered(s, m) ==> Delivered(t, m)
  {
    if i :| 0 <= i < |s.dispatches| && s.dispatches[i].ok && s.log[s.dispatches[i].sid].msg == m {
      assert t.dispatches[i] == s.dispatches[i];
    }
  }

  lemma {:induction false} TallyNone(log: seq<Fields>, ds: seq<Dispatch>, m: Message)
    requires forall i :: 0 <= i < |ds| ==> ds[i].sid < |log| && log[ds[i].sid].msg != m
    ensures Tally(log, ds, m, false) == 0
    decreases |ds|
  {
    if ds == [] {
    } else {
      TallyNone(log, ds[..|ds| - 1], m);
    }
  }

  /** What an exclusive processor holds is active until it is about to be deleted. */
  lemma HeldActive(y: System, pid: Pid)
    requires Closed(y.state) && Exclusive(y) && pid in y.pcs && !y.pcs[pid].Idle? && !y.pcs[pid].Deleting?
    ensures var i := y.pcs[pid].sid;
      && i in y.state.live && Active(y, y.state.log[i].msg, i)
      && (Spent(y, i) <==> y.pcs[pid].Failed?)
  {
    var i := y.pcs[pid].sid;
    forall p | p in y.pcs && Settles(y.pcs[p], i) ensures p == pid { }
  }

  lemma NobodyHolds(y: System, i: Sid)
    requires Exclusive(y) && i !in y.state.live
    ensures !Doomed(y, i) && !Spent(y, i)
  {
  }

  // ---------------------------------------------------------------------- the steps

  lemma ExclusiveKeeps(y: System, a: Action, maxRetries: int)
    requires Closed(y.state) && Exclusive(y) && Enabled(y, a) && Clean(y, a)
    ensures Exclusive(Take(y, a, maxRetries))
  {
  }

  /** Reading an entry or the clock, or waiting, settles nothing. */
  lemma QuietSettled(y: System, a: Action, maxRetries: int, m: Message)
    requires Closed(y.state) && Settled(y, m, maxRetries)
    requires Enabled(y, a) && (a.Fetch? || a.Check? || a.Wait?)
    ensures Settled(Take(y, a, maxRetries), m, maxRetries)
  {
    var z := Take(y, a, maxRetries);
    forall i: Sid ensures (Doomed(y, i) <==> Doomed(z, i)) && (Spent(y, i) <==> Spent(z, i)) {
      if !a.Wait? {
        assert Elsewhere(y, z, a.pid, i);
        ElsewhereSame(y, z, a.pid, i);
      }
    }
    SettledFrame(y, z, m, maxRetries);
  }

  lemma DeleteSettled(y: System, a: Action, maxRetries: int, m: Message)
    requires Closed(y.state) && Settled(y, m, maxRetries) && Enabled(y, a) && a.Delete? && a.fault == CLEAN
    ensures Settled(Take(y, a, maxRetries), m, maxRetries)
  {
    var z := Take(y, a, maxRetries);
    var sid := PcOf(y, a.pid).sid;
    assert Doomed(y, sid) by { assert y.pcs[a.pid] == Deleting(sid); }
    forall i: Sid | i != sid ensures (Doomed(y, i) <==> Doomed(z, i)) && (Spent(y, i) <==> Spent(z, i)) {
      assert Elsewhere(y, z, a.pid, i);
      ElsewhereSame(y, z, a.pid, i);
    }
    SettledFrame(y, z, m, maxRetries);
  }

  /** Another message's entry is published, dispatched or rescheduled. */
  lemma OtherSettled(y: System, z: System, pid: Pid, sid: Sid, m: Message, maxRetries: int)
    requires Extends(y.state, z.state) && Settled(y, m, maxRetries)
    requires z.pcs == y.pcs || OnlyAt(y, z, pid, sid)
    requires sid < |y.state.log| ==> y.state.log[sid].msg != m
    requires forall i :: i in y.state.live <==> i in z.state.live && i < |y.state.log|
    requires forall i :: |y.state.log| <= i < |z.state.log| ==> z.state.log[i].msg != m
    requires Tally(z.state.log, z.state.dispatches, m, false) == Tally(y.state.log, y.state.dispatches, m, false)
    ensures Settled(z, m, maxRetries)
  {
    hide Tally, Settled, Delivered;
    forall i: Sid | i != sid ensures (Doomed(y, i) <==> Doomed(z, i)) && (Spent(y, i) <==> Spent(z, i)) {
      if z.pcs != y.pcs {
        assert Elsewhere(y, z, pid, i);
        ElsewhereSame(y, z, pid, i);
      }
    }
    hide Doomed, Spent;
    forall i: Sid ensures Active(y, m, i) <==> Active(z, m, i) {
      if i < |y.state.log| { assert y.state.log[i] == z.state.log[i]; }
    }
    forall i: Sid | Condemned(z, m, i) ensures Condemned(y, m, i) {
      assert i < |y.state.log| && y.state.log[i] == z.state.log[i];
    }
    SettledFrame(y, z, m, maxRetries);
  }

  lemma PublishSettled(y: System, e: Fields, maxRetries: int, m: Message)
    requires CleanInv(y, maxRetries) && Enabled(y, Publish(e, CLEAN))
    requires m == e.msg || Settled(y, m, maxRetries)
    ensures Closed(XAdd(y.state, e, CLEAN))
    ensures Settled(y.(state := XAdd(y.state, e, CLEAN)), m, maxRetries)
  {
    var s := y.state;
    AddEffects(s, e, CLEAN);
    var z := y.(state := XAdd(s, e, CLEAN));
    TallyFrame(s.log, z.state.log, s.dispatches, m, false);
    hide XAdd;
    NobodyHolds(y, |s.log|);
    if m == e.msg {
      TallyNone(s.log, s.dispatches, m);
      assert forall i :: Active(z, m, i) <==> i == |s.log|;
      assert Active(z, m, |s.log|);
      assert forall i :: !Condemned(z, m, i);
    } else {
      OtherSettled(y, z, 0, |s.log|, m, maxRetries);
    }
  }

  lemma SendOwn(y: System, a: Action, maxRetries: int)
    requires CleanInv(y, maxRetries) && a.Send? && Enabled(y, a)
    ensures var z := Take(y, a, maxRetries);
      Closed(z.state) && Settled(z, y.state.log[PcOf(y, a.pid).sid].msg, maxRetries)
  {
    var s := y.state;
    var Checked(sid, read) := PcOf(y, a.pid);
    var m, d := s.log[sid].msg, Dispatch(sid, read, y.clock, a.ok);
    var z := Take(y, a, maxRetries);
    HeldActive(y, a.pid);
    TallyAppend(s.log, s.dispatches, d, m, false);
    assert z.state.dispatches[|s.dispatches|] == d;
    forall i: Sid | i != sid ensures Doomed(y, i) <==> Doomed(z, i) {
      assert Elsewhere(y, z, a.pid, i);
      ElsewhereSame(y, z, a.pid, i);
    }
    forall i: Sid | Active(z, m, i) ensures i == sid {
      assert i != sid ==> Active(y, m, i);
    }
    var n := Tally(z.state.log, z.state.dispatches, m, false);
    forall i: Sid | Condemned(z, m, i) ensures HadTurn(z, m, i, n, maxRetries) {
      assert i != sid ==> Condemned(y, m, i);
    }
    if a.ok || s.log[sid].attempts + 1 > maxRetries {
      assert z.pcs[a.pid] == Deleting(sid) && Doomed(z, sid);
      assert forall i :: !Active(z, m, i);
      assert a.ok ==> Delivered(z.state, m);
    } else {
      assert z.pcs[a.pid] == Failed(sid, read) && Spent(z, sid);
      StaysUndoomed(y, z, a.pid, sid);
      assert Active(z, m, sid);
    }
  }

  lemma StaysUndoomed(y: System, z: System, pid: Pid, i: Sid)
    requires pid in z.pcs && z.pcs == y.pcs[pid := z.pcs[pid]] && z.pcs[pid] != Deleting(i) && !Doomed(y, i)
    ensures !Doomed(z, i)
  {
    forall p | p in z.pcs ensures z.pcs[p] != Deleting(i) {
      assert p != pid ==> p in y.pcs && z.pcs[p] == y.pcs[p];
    }
  }

  lemma SendOther(y: System, a: Action, maxRetries: int, m: Message)
    requires CleanInv(y, maxRetries) && a.Send? && Enabled(y, a)
    requires Settled(y, m, maxRetries) && m != y.state.log[PcOf(y, a.pid).sid].msg
    ensures var z := Take(y, a, maxRetries); Closed(z.state) && Settled(z, m, maxRetries)
  {
    var s := y.state;
    var Checked(sid, read) := PcOf(y, a.pid);
    TallyAppend(s.log, s.dispatches, Dispatch(sid, read, y.clock, a.ok), m, false);
    OtherSettled(y, Take(y, a, maxRetries), a.pid, sid, m, maxRetries);
  }

  /** The processor pid has appended f, the successor of the entry sid it failed on. */
  ghost predicate Replaces(y: System, z: System, pid: Pid, sid: Sid, f: Fields) {
    && pid in y.pcs && y.pcs[pid].Failed? && y.pcs[pid].sid == sid < |y.state.log|
    && f.msg == y.state.log[sid].msg && f.attempts == y.state.log[sid].attempts + 1
    && z.state == State(y.state.log + [f], y.state.live + {|y.state.log|}, y.state.dispatches)
    && z.pcs == y.pcs[pid := Deleting(sid)]
  }

  lemma ReaddClean(y: System, a: Action, maxRetries: int)
    requires Closed(y.state) && a.Readd? && a.fault == CLEAN && Enabled(y, a)
    ensures var z, sid := Take(y, a, maxRetries), PcOf(y, a.pid).sid;
      && Closed(z.state)
      && Replaces(y, z, a.pid, sid, Rescheduled(y.state.log[sid], sid, PcOf(y, a.pid).read))
  {
    var Failed(sid, read) := PcOf(y, a.pid);
    AddEffects(y.state, Rescheduled(y.state.log[sid], sid, read), CLEAN);
    hide XAdd, Backoff;
  }

  lemma ReplacedOwn(y: System, z: System, pid: Pid, sid: Sid, f: Fields, maxRetries: int)
    requires Closed(y.state) && Closed(z.state) && Exclusive(y) && Replaces(y, z, pid, sid, f)
    requires Settled(y, f.msg, maxRetries) && y.state.log[sid].attempts < maxRetries
    ensures Settled(z, f.msg, maxRetries)
  {
    var s, m, j := y.state, f.msg, |y.state.log|;
    TallyFrame(s.log, z.state.log, s.dispatches, m, false);
    HeldActive(y, pid);
    NobodyHolds(y, j);
    hide Tally, Delivered, Exclusive;
    forall i: Sid | i != sid ensures (Doomed(y, i) <==> Doomed(z, i)) && (Spent(y, i) <==> Spent(z, i)) {
      assert Elsewhere(y, z, pid, i);
      ElsewhereSame(y, z, pid, i);
    }
    assert z.pcs[pid] == Deleting(sid) && Doomed(z, sid);
    hide Doomed, Spent;
    forall i: Sid | Active(z, m, i) ensures i == j {
      assert i != j && i != sid ==> Active(y, m, i);
    }
    var n := Tally(z.state.log, z.state.dispatches, m, false);
    forall i: Sid | Condemned(z, m, i) ensures HadTurn(z, m, i, n, maxRetries) {
      assert i != sid ==> Condemned(y, m, i);
    }
    assert Active(z, m, j);
  }

  lemma ReplacedOther(y: System, z: System, pid: Pid, sid: Sid, f: Fields, m: Message, maxRetries: int)
    requires Closed(y.state) && Closed(z.state) && Replaces(y, z, pid, sid, f)
    requires Settled(y, m, maxRetries) && m != f.msg
    ensures Settled(z, m, maxRetries)
  {
    TallyFrame(y.state.log, z.state.log, y.state.dispatches, m, false);
    hide Settled, Tally;
    OtherSettled(y, z, pid, sid, m, maxRetries);
  }

  lemma ReaddSettled(y: System, a: Action, maxRetries: int, z: System, m: Message)
    requires CleanInv(y, maxRetries) && a.Readd? && a.fault == CLEAN && Enabled(y, a) && z == Take(y, a, maxRetries)
    requires Settled(y, m, maxRetries)
    ensures Closed(z.state) && Settled(z, m, maxRetries)
  {
    assert PcOk(y, a.pid, maxRetries) && Closed(y.state);
    assert PcOf(y, a.pid).Failed?;
    hide Take, Settled, Exclusive, Inv, Enabled;
    var Failed(sid, read) := PcOf(y, a.pid);
    var f := Rescheduled(y.state.log[sid], sid, read);
    ReaddClean(y, a, maxRetries);
    hide Rescheduled;
    if m == f.msg {
      ReplacedOwn(y, z, a.pid, sid, f, maxRetries);
    } else {
      ReplacedOther(y, z, a.pid, sid, f, m, maxRetries);
    }
  }

  lemma StepSettled(y: System, a: Action, maxRetries: int, i: Sid)
    requires CleanInv(y, maxRetries) && Enabled(y, a) && Clean(y, a)
    requires Closed(Take(y, a, maxRetries).state) && i < |Take(y, a, maxRetries).state.log|
    ensures var z := Take(y, a, maxRetries); Settled(z, z.state.log[i].msg, maxRetries)
  {
    var z := Take(y, a, maxRetries);
    var m := z.state.log[i].msg;
    hide Settled, Inv, Exclusive;
    LogGrows(y, a, maxRetries);
    var known := i < |y.state.log|;
    assert known ==> Settled(y, m, maxRetries);
    match a
    case Publish(e, _) => PublishSettled(y, e, maxRetries, m);
    case Send(_, _) =>
      if m == y.state.log[PcOf(y, a.pid).sid].msg {
        SendOwn(y, a, maxRetries);
      } else {
        SendOther(y, a, maxRetries, m);
      }
    case Readd(_, _) =>
      assert m == y.state.log[PcOf(y, a.pid).sid].msg ==> Settled(y, m, maxRetries);
      ReaddSettled(y, a, maxRetries, z, m);
    case Delete(_, _) => DeleteSettled(y, a, maxRetries, m);
    case Fetch(_, _) => QuietSettled(y, a, maxRetries, m);
    case Check(_) => QuietSettled(y, a, maxRetries, m);
    case Wait(_) => QuietSettled(y, a, maxRetries, m);
    case Crash(_) => assert false;
  }

  /** A step keeps the log and may add copies of what is published or rescheduled. */
  lemma LogGrows(y: System, a: Action, maxRetries: int)
    requires Enabled(y, a)
    ensures var z := Take(y, a, maxRetries);
      && y.state.log <= z.state.log
      && (a.Publish? ==> forall i :: |y.state.log| <= i < |z.state.log| ==> z.state.log[i].msg == a.entry.msg)
      && (a.Readd? ==> forall i :: |y.state.log| <= i < |z.state.log| ==>
            z.state.log[i].msg == y.state.log[PcOf(y, a.pid).sid].msg)
      && (!a.Publish? && !a.Readd? ==> z.state.log == y.state.log)
  {
  }

  lemma CleanStep(y: System, a: Action, maxRetries: int)
    requires CleanInv(y, maxRetries) && Enabled(y, a) && Clean(y, a)
    ensures CleanInv(Take(y, a, maxRetries), maxRetries)
  {
    var z := Take(y, a, maxRetries);
    StepKeeps(y, a, maxRetries);
    ExclusiveKeeps(y, a, maxRetries);
    hide Take, Settled, Exclusive, Clean, Enabled, Inv;
    forall i | 0 <= i < |z.state.log| ensures Settled(z, z.state.log[i].msg, maxRetries) {
      StepSettled(y, a, maxRetries, i);
    }
  }

  lemma {:induction false} CleanRunInv(ys: seq<System>, actions: seq<Action>, maxRetries: int, n: nat)
    requires CleanRun(ys, actions, maxRetries) && n <= |actions|
    ensures CleanInv(ys[n], maxRetries)
  {
    if n == 0 {
    } else {
      CleanRunInv(ys, actions, maxRetries, n - 1);
      CleanStep(ys[n - 1], actions[n - 1], maxRetries);
    }
  }

  /** With no failing command, no crash, and no entry taken while another processor
      holds it, a message published with attempts a is dispatched at most
      max(1, maxRetries - a + 1) times; of two copies one is about to be deleted; and
      once it has none and was not delivered it has been dispatched exactly that often. */
  lemma BoundedRedelivery(ys: seq<System>, actions: seq<Action>, maxRetries: int, n: nat, i: Sid)
    requires CleanRun(ys, actions, maxRetries) && n <= |actions| && i < |ys[n].state.log|
    ensures Closed(ys[n].state)
    ensures var s := ys[n].state;
      var m := s.log[i].msg;
      var quota := if m.first > maxRetries then 1 else maxRetries - m.first + 1;
      && Tally(s.log, s.dispatches, m, false) <= quota
      && (forall j, k | j in s.live && k in s.live && j != k ::
            s.log[j].msg == m && s.log[k].msg == m ==> Doomed(ys[n], j) || Doomed(ys[n], k))
      && ((forall j | j in s.live :: s.log[j].msg != m) && !Delivered(s, m) ==>
            Tally(s.log, s.dispatches, m, false) == quota)
  {
    CleanRunInv(ys, actions, maxRetries, n);
    var s := ys[n].state;
    var m := s.log[i].msg;
    assert Settled(ys[n], m, maxRetries);
    hide Doomed, Spent, Tally, Delivered;
    forall j, k | j in s.live && k in s.live && j != k && s.log[j].msg == m && s.log[k].msg == m
      ensures Doomed(ys[n], j) || Doomed(ys[n], k)
    {
      assert !(Active(ys[n], m, j) && Active(ys[n], m, k));
    }
  }
}
