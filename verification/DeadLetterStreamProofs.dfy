// The stream dead-letter protocol: no message is lost at any command boundary,
// with any number of processors, crashes and failing commands.
module DeadLetterStreamProofs {
  import opened Common
  import opened DeadLetterStream

  /** Dispatches a message gets before it is given up. */
  function Quota(attempts: int, maxRetries: int): (q: nat)
    ensures q >= 1
  {
    if attempts > maxRetries then 1 else maxRetries - attempts + 1
  }

  /** Dispatches of m so far: all of them, or the failed ones only. */
  ghost function Tally(log: seq<Fields>, ds: seq<Dispatch>, m: Message, failedOnly: bool): nat
    requires forall i :: 0 <= i < |ds| ==> ds[i].sid < |log|
    decreases |ds|
  {
    if ds == [] then 0 else
    var d := ds[|ds| - 1];
    Tally(log, ds[..|ds| - 1], m, failedOnly)
    + if log[d.sid].msg == m && !(failedOnly && d.ok) then 1 else 0
  }

  ghost predicate Delivered(s: State, m: Message)
    requires Closed(s)
  {
    exists i :: 0 <= i < |s.dispatches| && s.dispatches[i].ok && s.log[s.dispatches[i].sid].msg == m
  }

  /** Delivered, or dispatched without success as often as its quota allows. */
  ghost predicate Resolved(s: State, m: Message, maxRetries: int)
    requires Closed(s)
  {
    Delivered(s, m) || Tally(s.log, s.dispatches, m, true) >= Quota(m.first, maxRetries)
  }

  /** A copy of m with an id of at least lo is in the stream. */
  ghost predicate LiveFrom(s: State, m: Message, lo: nat)
    requires Closed(s)
  {
    exists i :: lo <= i && i in s.live && s.log[i].msg == m
  }

  ghost predicate Accountable(s: State, maxRetries: int)
    requires Closed(s)
  {
    forall i :: 0 <= i < |s.log| ==> Resolved(s, s.log[i].msg, maxRetries) || LiveFrom(s, s.log[i].msg, 0)
  }

  // ---------------------------------------------------------------- the invariant

  /** Copies of one message: same channel, same base delay. */
  ghost predicate Akin(e: Fields, f: Fields) {
    e.msg == f.msg && e.channel == f.channel && e.base == f.base
  }

  ghost predicate EntryOk(s: State, i: Sid)
    requires Closed(s) && i < |s.log|
  {
    var e := s.log[i];
    && Tally(s.log, s.dispatches, e.msg, true) >= e.attempts - e.msg.first
    && (e.parent.None? ==> e.attempts == e.msg.first)
    && (e.parent.Some? ==>
          var p := e.parent.value;
          && p < i && Akin(s.log[p], e) && e.attempts == s.log[p].attempts + 1
          && e.nextRetry == e.scheduled + Backoff(e.base, e.attempts)
          && FailedWith(s, p, e.scheduled))
  }

  /** A dispatch of sid that rests on this clock reading has failed. */
  ghost predicate FailedWith(s: State, sid: Sid, read: real) {
    exists j :: 0 <= j < |s.dispatches| && IsFailure(s.dispatches[j], sid, read)
  }

  ghost predicate IsFailure(d: Dispatch, sid: Sid, read: real) {
    d.sid == sid && d.read == read && !d.ok
  }

  ghost predicate PcOk(y: System, pid: Pid, maxRetries: int)
    requires Closed(y.state)
  {
    var s := y.state;
    match PcOf(y, pid)
    case Idle => true
    case Fetched(sid) => sid < |s.log|
    case Checked(sid, read) => sid < |s.log| && Eligible(s.log[sid], read) && read <= y.clock
    case Failed(sid, read) =>
      && sid < |s.log|
      && s.log[sid].attempts < maxRetries
      && Tally(s.log, s.dispatches, s.log[sid].msg, true) >= s.log[sid].attempts + 1 - s.log[sid].msg.first
      && FailedWith(s, sid, read)
    case Deleting(sid) =>
      sid < |s.log| && (Resolved(s, s.log[sid].msg, maxRetries) || LiveFrom(s, s.log[sid].msg, sid + 1))
  }

  ghost predicate Inv(y: System, maxRetries: int) {
    && Closed(y.state)
    && Accountable(y.state, maxRetries)
    && (forall i :: 0 <= i < |y.state.log| ==> EntryOk(y.state, i))
    && (forall i, j :: 0 <= i < j < |y.state.log| && y.state.log[i].msg.id == y.state.log[j].msg.id
          ==> Akin(y.state.log[i], y.state.log[j]))
    && (forall pid | pid in y.pcs :: PcOk(y, pid, maxRetries))
    && (forall i :: 0 <= i < |y.state.dispatches| ==> DispatchOk(y, y.state.dispatches[i]))
  }

  /** Not before its entry's retry time, on a known channel, and after its reading. */
  ghost predicate DispatchOk(y: System, d: Dispatch) {
    d.sid < |y.state.log| && Eligible(y.state.log[d.sid], d.read) && d.read <= d.at <= y.clock
  }

  // ------------------------------------------------------------------ frame lemmas

  lemma {:induction false} TallyFrame(
    log: seq<Fields>, log': seq<Fields>, ds: seq<Dispatch>, m: Message, failedOnly: bool)
    requires log <= log' && forall i :: 0 <= i < |ds| ==> ds[i].sid < |log|
    ensures Tally(log, ds, m, failedOnly) == Tally(log', ds, m, failedOnly)
    decreases |ds|
  {
    if ds == [] {
    } else {
      TallyFrame(log, log', ds[..|ds| - 1], m, failedOnly);
    }
  }

  lemma TallyAppend(log: seq<Fields>, ds: seq<Dispatch>, d: Dispatch, m: Message, failedOnly: bool)
    requires d.sid < |log| && forall i :: 0 <= i < |ds| ==> ds[i].sid < |log|
    ensures Tally(log, ds + [d], m, failedOnly) == Tally(log, ds, m, failedOnly)
      + if log[d.sid].msg == m && !(failedOnly && d.ok) then 1 else 0
  {
    assert (ds + [d])[..|ds|] == ds;
  }

  /** t has at least the entries and dispatches of s. */
  ghost predicate Extends(s: State, t: State) {
    Closed(s) && Closed(t) && s.log <= t.log && s.dispatches <= t.dispatches
  }

  lemma {:induction false} TallyGrows(s: State, t: State, m: Message, n: nat)
    requires Extends(s, t) && |s.dispatches| <= n <= |t.dispatches|
    ensures Tally(t.log, t.dispatches[..n], m, true) >= Tally(s.log, s.dispatches, m, true)
    decreases n
  {
    if n == |s.dispatches| {
      assert t.dispatches[..n] == s.dispatches;
      TallyFrame(s.log, t.log, s.dispatches, m, true);
    } else {
      TallyGrows(s, t, m, n - 1);
      assert t.dispatches[..n][..n - 1] == t.dispatches[..n - 1];
    }
  }

  lemma ResolvedGrows(s: State, t: State, m: Message, maxRetries: int)
    requires Extends(s, t) && Resolved(s, m, maxRetries)
    ensures Resolved(t, m, maxRetries)
  {
    TallyGrows(s, t, m, |t.dispatches|);
    assert t.dispatches[..|t.dispatches|] == t.dispatches;
    if i :| 0 <= i < |s.dispatches| && s.dispatches[i].ok && s.log[s.dispatches[i].sid].msg == m {
      assert t.dispatches[i].ok && t.log[t.dispatches[i].sid].msg == m;
    }
  }

  lemma EntryGrows(s: State, t: State, i: Sid)
    requires Extends(s, t) && i < |s.log| && EntryOk(s, i)
    ensures EntryOk(t, i)
  {
    TallyGrows(s, t, s.log[i].msg, |t.dispatches|);
    assert t.dispatches[..|t.dispatches|] == t.dispatches;
    if s.log[i].parent.Some? { FailureGrows(s, t, s.log[i].parent.value, s.log[i].scheduled); }
  }

  lemma FailureGrows(s: State, t: State, sid: Sid, read: real)
    requires Extends(s, t) && FailedWith(s, sid, read)
    ensures FailedWith(t, sid, read)
  {
    var j :| 0 <= j < |s.dispatches| && IsFailure(s.dispatches[j], sid, read);
    assert t.dispatches[j] == s.dispatches[j];
  }

  /** Everything a step that only adds entries or dispatches leaves intact. */
  lemma Grows(y: System, t: State, maxRetries: int)
    requires Inv(y, maxRetries) && Extends(y.state, t) && y.state.live <= t.live
    ensures forall i :: 0 <= i < |y.state.log| ==>
      EntryOk(t, i) && (Resolved(t, t.log[i].msg, maxRetries) || LiveFrom(t, t.log[i].msg, 0))
    ensures forall pid | pid in y.pcs :: PcOk(y.(state := t), pid, maxRetries)
  {
    var s := y.state;
    forall i | 0 <= i < |s.log|
      ensures EntryOk(t, i) && (Resolved(t, t.log[i].msg, maxRetries) || LiveFrom(t, t.log[i].msg, 0))
    {
      EntryGrows(s, t, i);
      if Resolved(s, s.log[i].msg, maxRetries) {
        ResolvedGrows(s, t, s.log[i].msg, maxRetries);
      }
    }
    forall pid | pid in y.pcs ensures PcOk(y.(state := t), pid, maxRetries) {
      PcGrows(y, t, pid, maxRetries);
    }
  }

  lemma PcGrows(y: System, t: State, pid: Pid, maxRetries: int)
    requires Closed(y.state) && PcOk(y, pid, maxRetries) && Extends(y.state, t) && y.state.live <= t.live
    ensures PcOk(y.(state := t), pid, maxRetries)
  {
    var s := y.state;
    match PcOf(y, pid)
    case Idle =>
    case Fetched(sid) =>
    case Checked(sid, read) =>
    case Failed(sid, read) =>
      FailureGrows(s, t, sid, read);
      TallyGrows(s, t, s.log[sid].msg, |t.dispatches|);
      assert t.dispatches[..|t.dispatches|] == t.dispatches;
    case Deleting(sid) =>
      if Resolved(s, s.log[sid].msg, maxRetries) {
        ResolvedGrows(s, t, s.log[sid].msg, maxRetries);
      } else {
        var i :| sid + 1 <= i && i in s.live && s.log[i].msg == s.log[sid].msg;
        assert i in t.live && t.log[i].msg == s.log[sid].msg;
      }
  }

  // ---------------------------------------------------------------------- the steps

  lemma PublishKeeps(y: System, a: Action, maxRetries: int)
    requires Inv(y, maxRetries) && a.Publish? && Enabled(y, a)
    ensures Inv(Take(y, a, maxRetries), maxRetries)
  {
    var z := Take(y, a, maxRetries);
    var t := z.state;
    Grows(y, t, maxRetries);
    PublishEntries(y, a, maxRetries, t);
    PublishIds(y.state, a.entry, t, Effects(a.fault));
    DispatchesStay(y, z, maxRetries);
    hide EntryOk, Resolved, LiveFrom, PcOk, DispatchOk, Effects;
  }

  lemma PublishIds(s: State, e: Fields, t: State, n: nat)
    requires t.log == s.log + Repeat(e, n) && forall i :: 0 <= i < |s.log| ==> s.log[i].msg.id != e.msg.id
    requires forall i, j :: 0 <= i < j < |s.log| && s.log[i].msg.id == s.log[j].msg.id ==> Akin(s.log[i], s.log[j])
    ensures forall i, j :: 0 <= i < j < |t.log| && t.log[i].msg.id == t.log[j].msg.id ==> Akin(t.log[i], t.log[j])
  {
    assert forall i :: |s.log| <= i < |t.log| ==> t.log[i] == e;
  }

  lemma PublishEntries(y: System, a: Action, maxRetries: int, t: State)
    requires Inv(y, maxRetries) && a.Publish? && Enabled(y, a) && t == Take(y, a, maxRetries).state
    ensures forall i :: |y.state.log| <= i < |t.log| ==> EntryOk(t, i) && LiveFrom(t, t.log[i].msg, 0)
  {
    forall i | |y.state.log| <= i < |t.log| ensures EntryOk(t, i) && LiveFrom(t, t.log[i].msg, 0) {
      assert t.log[i] == a.entry && i in t.live;
    }
  }

  lemma ReaddEntries(y: System, a: Action, maxRetries: int, t: State)
    requires Inv(y, maxRetries) && a.Readd? && Enabled(y, a) && t == Take(y, a, maxRetries).state
    ensures forall i :: |y.state.log| <= i < |t.log| ==> EntryOk(t, i) && LiveFrom(t, t.log[i].msg, 0)
  {
    var s := y.state;
    var Failed(sid, now) := PcOf(y, a.pid);
    assert PcOk(y, a.pid, maxRetries);
    TallyFrame(s.log, t.log, s.dispatches, s.log[sid].msg, true);
    forall i | |s.log| <= i < |t.log| ensures EntryOk(t, i) && LiveFrom(t, t.log[i].msg, 0) {
      assert t.log[i] == Rescheduled(s.log[sid], sid, now) && i in t.live;
    }
  }

  lemma ReaddIds(log: seq<Fields>, log': seq<Fields>, sid: Sid)
    requires log <= log' && sid < |log|
    requires forall i, j :: 0 <= i < j < |log| && log[i].msg.id == log[j].msg.id ==> Akin(log[i], log[j])
    requires forall i :: |log| <= i < |log'| ==> Akin(log'[i], log[sid])
    ensures forall i, j :: 0 <= i < j < |log'| && log'[i].msg.id == log'[j].msg.id ==> Akin(log'[i], log'[j])
  {
    forall i, j | 0 <= i < j < |log'| && log'[i].msg.id == log'[j].msg.id ensures Akin(log'[i], log'[j]) {
      var i' := if i < |log| then i else sid;
      var j' := if j < |log| then j else sid;
      assert Akin(log'[i], log[i']) && Akin(log'[j], log[j']);
      assert i' < j' || i' == j' || j' < i';
    }
  }

  lemma ReaddPcs(y: System, a: Action, maxRetries: int, z: System)
    requires Inv(y, maxRetries) && a.Readd? && Enabled(y, a) && z == Take(y, a, maxRetries) && Closed(z.state)
    ensures forall pid | pid in z.pcs :: PcOk(z, pid, maxRetries)
  {
    var s, t := y.state, z.state;
    forall pid | pid in z.pcs ensures PcOk(z, pid, maxRetries) {
      if pid != a.pid {
        PcGrows(y, t, pid, maxRetries);
      } else if Returned(a.fault) {
        assert |s.log| in t.live && t.log[|s.log|].msg == s.log[PcOf(y, a.pid).sid].msg;
      }
    }
  }

  lemma ReaddKeeps(y: System, a: Action, maxRetries: int)
    requires Inv(y, maxRetries) && a.Readd? && Enabled(y, a)
    ensures Inv(Take(y, a, maxRetries), maxRetries)
  {
    var z := Take(y, a, maxRetries);
    ReaddFacts(y, a, maxRetries, z);
    hide Take, Enabled, EntryOk, Resolved, LiveFrom, PcOk, DispatchOk;
    Grows(y, z.state, maxRetries);
    ReaddEntries(y, a, maxRetries, z.state);
    ReaddPcs(y, a, maxRetries, z);
    ReaddIds(y.state.log, z.state.log, PcOf(y, a.pid).sid);
    DispatchesStay(y, z, maxRetries);
  }

  lemma ReaddFacts(y: System, a: Action, maxRetries: int, z: System)
    requires Closed(y.state) && a.Readd? && Enabled(y, a) && z == Take(y, a, maxRetries)
    ensures Closed(z.state) && y.state.log <= z.state.log && y.state.dispatches == z.state.dispatches
    ensures y.state.live <= z.state.live && z.clock == y.clock
    ensures PcOf(y, a.pid).Failed? && PcOf(y, a.pid).sid < |y.state.log|
    ensures forall i :: |y.state.log| <= i < |z.state.log| ==>
      Akin(z.state.log[i], y.state.log[PcOf(y, a.pid).sid])
  {
  }

  lemma DispatchesStay(y: System, z: System, maxRetries: int)
    requires Inv(y, maxRetries) && y.clock <= z.clock
    requires y.state.log <= z.state.log && y.state.dispatches == z.state.dispatches
    ensures forall i :: 0 <= i < |z.state.dispatches| ==> DispatchOk(z, z.state.dispatches[i])
  {
    forall i | 0 <= i < |z.state.dispatches| ensures DispatchOk(z, z.state.dispatches[i]) {
      assert DispatchOk(y, y.state.dispatches[i]);
    }
  }

  lemma SendPcs(y: System, a: Action, maxRetries: int, z: System)
    requires Inv(y, maxRetries) && a.Send? && Enabled(y, a) && z == Take(y, a, maxRetries) && Closed(z.state)
    ensures forall pid | pid in z.pcs :: PcOk(z, pid, maxRetries)
  {
    var s, t := y.state, z.state;
    var sid := PcOf(y, a.pid).sid;
    forall pid | pid in z.pcs ensures PcOk(z, pid, maxRetries) {
      if pid != a.pid {
        PcGrows(y, t, pid, maxRetries);
      } else {
        var d := Dispatch(sid, PcOf(y, a.pid).read, y.clock, a.ok);
        assert EntryOk(s, sid);
        TallyAppend(s.log, s.dispatches, d, s.log[sid].msg, true);
        assert t.dispatches[|s.dispatches|] == d;
      }
    }
  }

  lemma SendKeeps(y: System, a: Action, maxRetries: int)
    requires Inv(y, maxRetries) && a.Send? && Enabled(y, a)
    ensures Inv(Take(y, a, maxRetries), maxRetries)
  {
    var z := Take(y, a, maxRetries);
    Grows(y, z.state, maxRetries);
    SendPcs(y, a, maxRetries, z);
    assert PcOk(y, a.pid, maxRetries);
    forall i | 0 <= i < |z.state.dispatches| ensures DispatchOk(z, z.state.dispatches[i]) {
      assert i < |y.state.dispatches| ==> DispatchOk(y, y.state.dispatches[i]);
    }
  }

  /** Deleting one copy never takes away the last trace of a message: the deleter's
      own message is resolved or has a later copy, and so has everyone else's. */
  lemma DeleteKeeps(y: System, a: Action, maxRetries: int)
    requires Inv(y, maxRetries) && a.Delete? && Enabled(y, a)
    ensures Inv(Take(y, a, maxRetries), maxRetries)
  {
    hide Effects, Eligible;
    var s := y.state;
    var sid := PcOf(y, a.pid).sid;
    assert PcOk(y, a.pid, maxRetries);
    var z := Take(y, a, maxRetries);
    var t := z.state;
    DispatchesStay(y, z, maxRetries);
    hide Take, Resolved, LiveFrom, EntryOk, DispatchOk;
    forall i | 0 <= i < |t.log|
      ensures EntryOk(t, i) && (Resolved(t, t.log[i].msg, maxRetries) || LiveFrom(t, t.log[i].msg, 0))
    {
      EntryGrows(s, t, i);
      StillThere(s, t, s.log[i].msg, sid, 0, maxRetries);
    }
    forall pid | pid in z.pcs ensures PcOk(z, pid, maxRetries) {
      if pid != a.pid {
        assert PcOk(y, pid, maxRetries);
        if PcOf(y, pid).Deleting? {
          StillThere(s, t, s.log[PcOf(y, pid).sid].msg, sid, PcOf(y, pid).sid + 1, maxRetries);
        }
      }
    }
  }

  lemma StillThere(s: State, t: State, m: Message, sid: Sid, lo: nat, maxRetries: int)
    requires Closed(s) && sid < |s.log| && (t == s || t == s.(live := s.live - {sid}))
    requires Resolved(s, s.log[sid].msg, maxRetries) || LiveFrom(s, s.log[sid].msg, sid + 1)
    requires Resolved(s, m, maxRetries) || LiveFrom(s, m, lo)
    ensures Resolved(t, m, maxRetries) || LiveFrom(t, m, lo)
  {
    if Resolved(s, m, maxRetries) {
      ResolvedGrows(s, t, m, maxRetries);
    } else {
      var i :| lo <= i && i in s.live && s.log[i].msg == m;
      if i == sid {
        var j :| sid + 1 <= j && j in s.live && s.log[j].msg == m;
        assert j in t.live;
      } else {
        assert i in t.live;
      }
    }
  }

  lemma StepKeeps(y: System, a: Action, maxRetries: int)
    requires Inv(y, maxRetries) && Enabled(y, a)
    ensures Inv(Take(y, a, maxRetries), maxRetries)
  {
    match a
    case Publish(_, _) => PublishKeeps(y, a, maxRetries);
    case Readd(_, _) => ReaddKeeps(y, a, maxRetries);
    case Send(_, _) => SendKeeps(y, a, maxRetries);
    case Delete(_, _) => DeleteKeeps(y, a, maxRetries);
    case Fetch(_, _) => SameState(y, a, maxRetries);
    case Check(_) => SameState(y, a, maxRetries);
    case Crash(_) => SameState(y, a, maxRetries);
    case Wait(_) => SameState(y, a, maxRetries);
  }

  lemma SameState(y: System, a: Action, maxRetries: int)
    requires Inv(y, maxRetries) && Enabled(y, a) && (a.Fetch? || a.Check? || a.Crash? || a.Wait?)
    ensures Inv(Take(y, a, maxRetries), maxRetries)
  {
    var z := Take(y, a, maxRetries);
    hide EntryOk, Resolved, LiveFrom, FailedWith, Eligible;
    forall pid | pid in z.pcs ensures PcOk(z, pid, maxRetries) {
      if a.Wait? || pid != a.pid {
        assert pid in y.pcs && PcOk(y, pid, maxRetries);
      }
    }
    DispatchesStay(y, z, maxRetries);
  }

  // --------------------------------------------------------------------- every run

  const START := System(State([], {}, []), map[], 0.0)

  ghost predicate IsRun(ys: seq<System>, actions: seq<Action>, maxRetries: int) {
    && |ys| == |actions| + 1
    && ys[0] == START
    && forall i :: 0 <= i < |actions| ==> Enabled(ys[i], actions[i]) && ys[i + 1] == Take(ys[i], actions[i], maxRetries)
  }

  lemma {:induction false} RunKeeps(ys: seq<System>, actions: seq<Action>, maxRetries: int, n: nat)
    requires IsRun(ys, actions, maxRetries) && n <= |actions|
    ensures Inv(ys[n], maxRetries)
  {
    if n == 0 {
    } else {
      RunKeeps(ys, actions, maxRetries, n - 1);
      StepKeeps(ys[n - 1], actions[n - 1], maxRetries);
    }
  }

  /** From y to z by these actions. */
  ghost predicate Path(y: System, actions: seq<Action>, maxRetries: int, z: System)
    decreases |actions|
  {
    if actions == [] then y == z
    else Enabled(y, actions[0]) && Path(Take(y, actions[0], maxRetries), actions[1..], maxRetries, z)
  }

  lemma EmptyPath(z: System, maxRetries: int)
    ensures Path(z, [], maxRetries, z)
  {
  }

  lemma Prepend(y: System, a: Action, rest: seq<Action>, maxRetries: int, z: System)
    requires Enabled(y, a) && Path(Take(y, a, maxRetries), rest, maxRetries, z)
    ensures Path(y, [a] + rest, maxRetries, z)
  {
    assert ([a] + rest)[1..] == rest;
  }

  /** The paths from the empty stream are the runs. */
  lemma {:induction false} PathRun(y: System, actions: seq<Action>, maxRetries: int, z: System)
    returns (ys: seq<System>)
    requires Path(y, actions, maxRetries, z)
    ensures |ys| == |actions| + 1 && ys[0] == y && ys[|actions|] == z
    ensures forall i :: 0 <= i < |actions| ==>
      Enabled(ys[i], actions[i]) && ys[i + 1] == Take(ys[i], actions[i], maxRetries)
    decreases |actions|
  {
    hide Enabled, Take;
    if actions == [] {
      ys := [y];
    } else {
      var rest := PathRun(Take(y, actions[0], maxRetries), actions[1..], maxRetries, z);
      ys := [y] + rest;
      forall i | 0 <= i < |actions|
        ensures Enabled(ys[i], actions[i]) && ys[i + 1] == Take(ys[i], actions[i], maxRetries)
      {
        assert i > 0 ==> actions[i] == actions[1..][i - 1] && ys[i] == rest[i - 1];
      }
    }
  }

  /** At every command boundary of every run, whatever fails or crashes: a message
      that ever reached the stream is in it now, or was delivered, or was dispatched
      in vain as often as its quota allows. */
  lemma NeverLost(ys: seq<System>, actions: seq<Action>, maxRetries: int, n: nat, i: Sid)
    requires IsRun(ys, actions, maxRetries) && n <= |actions| && i < |ys[n].state.log|
    ensures Closed(ys[n].state)
    ensures var s := ys[n].state;
      || LiveFrom(s, s.log[i].msg, 0)
      || Delivered(s, s.log[i].msg)
      || Tally(s.log, s.dispatches, s.log[i].msg, true) >= maxRetries - s.log[i].msg.first + 1 > 0
      || (s.log[i].msg.first > maxRetries && Tally(s.log, s.dispatches, s.log[i].msg, true) >= 1)
  {
    RunKeeps(ys, actions, maxRetries, n);
  }
}
