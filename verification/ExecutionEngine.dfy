// The execution engine: preconditions, kill switch, one order, a 30-second wait,
// then a fill or a timeout, and one reconciliation.
//
// Time is in milliseconds on a clock that never runs backwards; a sleep takes at
// least as long as asked.  The broker is a script of replies; an exception from it
// is one of the replies.  Everything asked of the broker is recorded in a trace.
module ExecutionEngine {
  import opened Common

  const HARD_TIMEOUT_MS := 30000
  const POLL_INTERVAL_MS := 100
  const SIZE_TOLERANCE := 0.001

  datatype Stage = Submitted | Filled | Failed | FailedTimeout | ExecutedFullLate | Rejected
  datatype KillState = Off | Warning | Active

  datatype Snapshot = Snapshot(
    advisoryId: string, referencePrice: real, slOffset: real, tpOffset: real,
    size: real, symbol: string, expiration: int)

  // ------------------------------------------------------------------------ the world

  /** An order id that is missing is "", falsy like None. */
  datatype SubmitReply = SubmitRaises | OrderId(id: string)
  datatype StatusReply = StatusRaises | Order(filled: bool, price: Option<real>, size: Option<real>)
  datatype Position = Position(size: Option<real>, sl: Option<real>, tp: Option<real>)
  datatype PositionsReply = PositionsRaises | Positions(all: seq<Position>)

  datatype Env = Env(
    drift: nat -> nat, submit: SubmitReply, status: nat -> StatusReply, positions: PositionsReply)

  datatype Call =
    | SubmitOrder(symbol: string, size: real)
    | GetStatus(id: string)
    | CancelOrder(id: string)
    | GetPositions

  class World {
    const env: Env
    var now: int
    var readings: nat
    var statusCalls: nat
    var trace: seq<Call>

    constructor (env: Env, now: int)
      ensures this.env == env && this.now == now && trace == [] && statusCalls == 0
    {
      this.env, this.now, trace, readings, statusCalls := env, now, [], 0, 0;
    }

    method ReadClock() returns (t: int)
      modifies this`now, this`readings
      ensures t == now >= old(now)
    {
      now, readings := now + env.drift(readings), readings + 1;
      t := now;
    }

    method Sleep(ms: nat)
      modifies this`now, this`readings
      ensures now >= old(now) + ms
    {
      now, readings := now + ms + env.drift(readings), readings + 1;
    }

    method Submit(symbol: string, size: real) returns (r: SubmitReply)
      modifies this`trace
      ensures trace == old(trace) + [SubmitOrder(symbol, size)] && r == env.submit
    {
      trace, r := trace + [SubmitOrder(symbol, size)], env.submit;
    }

    method Status(id: string) returns (r: StatusReply)
      modifies this`trace, this`statusCalls
      ensures trace == old(trace) + [GetStatus(id)]
      ensures statusCalls == old(statusCalls) + 1 && r == env.status(old(statusCalls))
    {
      trace, r, statusCalls := trace + [GetStatus(id)], env.status(statusCalls), statusCalls + 1;
    }

    /** Whether it succeeds does not matter: the engine swallows an exception from it. */
    method Cancel(id: string)
      modifies this`trace
      ensures trace == old(trace) + [CancelOrder(id)]
    {
      trace := trace + [CancelOrder(id)];
    }

    method OpenPositions() returns (r: PositionsReply)
      modifies this`trace
      ensures trace == old(trace) + [GetPositions] && r == env.positions
    {
      trace, r := trace + [GetPositions], env.positions;
    }
  }

  // --------------------------------------------------------------------- kill switches

  type Switches = map<string, KillState>

  function SwitchKey(target: string): string {
    if target == "" then "global" else target
  }

  function SwitchState(switches: Switches, target: string): KillState {
    if SwitchKey(target) in switches then switches[SwitchKey(target)] else Off
  }

  class KillSwitchManager {
    var switches: Switches
    var history: seq<(string, KillState)>

    constructor ()
      ensures switches == map[] && history == []
    {
      switches, history := map[], [];
    }

    method SetKillSwitch(state: KillState, target: string)
      modifies this
      ensures switches == old(switches)[if target == "" then "global" else target := state]
      ensures history == old(history) + [(if target == "" then "global" else target, state)]
    {
      var key := if target == "" then "global" else target;
      switches := switches[key := state];
      history := history + [(key, state)];
    }

    predicate IsActive(target: string)
      reads this
    {
      SwitchState(switches, target) != Off
    }
  }

  // --------------------------------------------------------------------- reconciliation

  datatype Finding = Matched | Mismatch | MissingPosition | MissingSlTp

  datatype Discrepancy = NoPosition | SizeDiffers | SlTpMissing

  datatype Report = Report(
    brokerSize: Option<real>, brokerSl: Option<real>, brokerTp: Option<real>,
    status: Finding, mismatches: seq<Discrepancy>, manual: bool)

  /** What the code compares: an expected size against the first position's size, and
      an expected stop against the presence of a stop. */
  ghost predicate SizeAgrees(expected: Option<real>, broker: Option<real>) {
    expected.Some? ==> broker.Some? && Abs(broker.value - expected.value) <= SIZE_TOLERANCE
  }

  ghost predicate StopPresent(expected: Option<real>, broker: Option<real>) {
    expected.Some? ==> broker.Some?
  }

  ghost predicate Sound(r: Report, expectedSize: Option<real>, expectedSl: Option<real>) {
    && (r.manual <==> r.mismatches != []) && (r.manual <==> r.status != Matched)
    && (r.status == Matched <==> SizeAgrees(expectedSize, r.brokerSize) && StopPresent(expectedSl, r.brokerSl))
    && (r.status == MissingSlTp <==> !StopPresent(expectedSl, r.brokerSl))
    && (r.status == MissingPosition ==> expectedSize.Some? && r.brokerSize.None?)
    && (r.status == Mismatch ==> expectedSize.Some? && r.brokerSize.Some?)
    && (NoPosition in r.mismatches <==> expectedSize.Some? && r.brokerSize.None?)
    && (SlTpMissing in r.mismatches <==> !StopPresent(expectedSl, r.brokerSl))
  }

  /** The report shows the first position the broker listed, if any. */
  ghost predicate FirstPosition(ps: seq<Position>, r: Report) {
    if ps == [] then r.brokerSize == None && r.brokerSl == None && r.brokerTp == None
    else r.brokerSize == ps[0].size && r.brokerSl == ps[0].sl && r.brokerTp == ps[0].tp
  }

  /** Matched means: any expected size within a thousandth of the broker's, and any
      expected stop present; and a stop that is absent outweighs a size that differs. */
  lemma SoundMeaning(r: Report, size: real, sl: Option<real>)
    requires Sound(r, Some(size), sl)
    ensures r.status == Matched <==>
      && r.brokerSize.Some? && -0.001 <= r.brokerSize.value - size <= 0.001
      && !(sl.Some? && r.brokerSl.None?)
    ensures r.status == MissingSlTp <==> sl.Some? && r.brokerSl.None?
    ensures r.status == MissingPosition <==> r.brokerSize.None? && !(sl.Some? && r.brokerSl.None?)
    ensures r.manual <==> r.status != Matched
  {
  }

  // ------------------------------------------------------------------------- the engine

  datatype Result = Result(
    status: Stage, orderId: string, fillPrice: Option<real>, size: Option<real>,
    sl: Option<real>, tp: Option<real>, slippage: Option<real>, killSwitch: KillState, report: Option<Report>)

  datatype Wait = Raised | TimedOut | Fill(price: Option<real>, size: Option<real>)

  const FRESH := Result(Submitted, "", None, None, None, None, None, Off, None)

  predicate Preconditions(s: Snapshot, now: int) {
    now <= s.expiration && s.advisoryId != "" && s.size > 0.0 && s.slOffset < 0.0 && s.tpOffset > 0.0
  }

  function CalculateSl(price: real, offset: real): real {
    price * (1.0 + offset)
  }

  function CalculateTp(price: real, offset: real): real {
    price * (1.0 + offset)
  }

  ghost predicate Pending(r: StatusReply) {
    r.Order? && !r.filled
  }

  /** Polls of the status script, the first n from position s on, none of them a fill. */
  ghost predicate AllPending(env: Env, s: nat, n: nat) {
    forall k :: s <= k < s + n ==> Pending(env.status(k))
  }

  function Polls(id: string, n: nat): seq<Call> {
    seq(n, i => GetStatus(id))
  }

  /** Broker calls of a reconciliation that does not raise. */
  function ReconcileCalls(id: string): seq<Call> {
    if id == "" then [GetPositions] else [GetStatus(id), GetPositions]
  }

  // ------------------------------------------------------------- what one run looks like

  /** Broker calls and result once the engine has decided to submit: env.status is
      read from position s on, n polls are made, and `late` is whether the 30 seconds
      were over when the fill or the timeout was handled. */
  ghost predicate Flow(env: Env, s: nat, snap: Snapshot, calls: seq<Call>, r: Result, n: nat, late: bool) {
    if env.submit.SubmitRaises? then
      n == 0 && calls == [SubmitOrder(snap.symbol, snap.size)] && r == FRESH.(status := Failed)
    else
      var id := env.submit.id;
      var base := [SubmitOrder(snap.symbol, snap.size)] + Polls(id, n);
      && n <= HARD_TIMEOUT_MS / POLL_INTERVAL_MS + 1
      && (|| (late && AllPending(env, s, n) && AfterTimeout(snap, id, base, calls, r))
          || (n >= 1 && AllPending(env, s, n - 1) && AfterReply(env.status(s + n - 1), snap, id, base, calls, r, late)))
  }

  /** One run from its inputs: refused without a call to the broker, or one flow. */
  ghost predicate Executed(
    env: Env, s: nat, switches: Switches, snap: Snapshot, validatedAt: int,
    calls: seq<Call>, r: Result, n: nat, late: bool)
  {
    if !Preconditions(snap, validatedAt) || SwitchState(switches, snap.symbol) != Off then
      calls == [] && r == FRESH.(status := Rejected)
    else
      Flow(env, s, snap, calls, r, n, late)
  }

  /** The reconciliation's calls follow, all of them if it produced a report. */
  ghost predicate Reconciled(before: seq<Call>, id: string, calls: seq<Call>, report: Option<Report>) {
    exists k :: 0 <= k <= |ReconcileCalls(id)| && calls == before + ReconcileCalls(id)[..k]
             && (report.Some? ==> k == |ReconcileCalls(id)|)
  }

  ghost predicate AfterTimeout(snap: Snapshot, id: string, base: seq<Call>, calls: seq<Call>, r: Result) {
    && Reconciled(base + [CancelOrder(id)], id, calls, r.report)
    && (r.report.Some? ==> Sound(r.report.value, None, None))
    && r == FRESH.(status := if r.report.Some? then FailedTimeout else Failed, orderId := id, report := r.report)
  }

  ghost predicate AfterReply(
    reply: StatusReply, snap: Snapshot, id: string, base: seq<Call>, calls: seq<Call>, r: Result, late: bool)
  {
    if !reply.Order? || (reply.filled && (reply.price.None? || snap.referencePrice == 0.0)) then
      calls == base && r == FRESH.(status := Failed, orderId := id)
    else
      var p := reply.price;
      && reply.filled && p.Some?
      && Reconciled(base, id, calls, r.report)
      && (r.report.Some? ==> Sound(r.report.value, reply.size, r.sl))
      && r.status == (if r.report.None? then Failed else if late then ExecutedFullLate else Filled)
      && r.orderId == id && r.fillPrice == p && r.size == reply.size && r.killSwitch == Off
      && r.sl == Some(CalculateSl(p.value, snap.slOffset)) && r.tp == Some(CalculateTp(p.value, snap.tpOffset))
      && r.slippage == Some((p.value - snap.referencePrice) / snap.referencePrice * 100.0)
  }

  class Engine {
    const world: World
    const manager: KillSwitchManager
    var startTime: Option<int>
    var timeoutTriggered: bool
    var reconciliations: seq<Report>

    constructor (world: World, manager: KillSwitchManager)
      ensures this.world == world && this.manager == manager && reconciliations == [] && startTime == None
    {
      this.world, this.manager := world, manager;
      startTime, timeoutTriggered, reconciliations := None, false, [];
    }

    method IsExpired() returns (expired: bool)
      modifies this`timeoutTriggered, world`now, world`readings
      ensures world.now >= old(world.now)
      ensures expired <==> startTime.Some? && world.now - startTime.value > 30000
    {
      if startTime.None? {
        return false;
      }
      var t := world.ReadClock();
      expired := t - startTime.value > HARD_TIMEOUT_MS;
      if expired && !timeoutTriggered {
        timeoutTriggered := true;
      }
    }

    /** Polls until a fill, an exception or the timeout; n polls are made. */
    method WaitForFill(id: string) returns (w: Wait, ghost n: nat)
      requires startTime.Some? && world.now >= startTime.value
      modifies this`timeoutTriggered, world
      ensures world.now >= old(world.now)
      ensures n <= 301 && (n > 0 ==> world.now - startTime.value >= 100 * (n - 1))
      ensures world.trace == old(world.trace) + Polls(id, n) && world.statusCalls == old(world.statusCalls) + n
      ensures w.TimedOut? ==>
        AllPending(world.env, old(world.statusCalls), n) && world.now - startTime.value > 30000
      ensures !w.TimedOut? ==> n >= 1 && AllPending(world.env, old(world.statusCalls), n - 1)
      ensures w.Raised? ==> world.env.status(old(world.statusCalls) + n - 1) == StatusRaises
      ensures w.Fill? ==> world.env.status(old(world.statusCalls) + n - 1) == Order(true, w.price, w.size)
    {
      n := 0;
      var expired := IsExpired();
      while !expired
        invariant world.now >= old(world.now) && world.now - startTime.value >= POLL_INTERVAL_MS * n
        invariant expired <==> world.now - startTime.value > HARD_TIMEOUT_MS
        invariant n <= HARD_TIMEOUT_MS / POLL_INTERVAL_MS + 1
        invariant world.trace == old(world.trace) + Polls(id, n) && world.statusCalls == old(world.statusCalls) + n
        invariant AllPending(world.env, old(world.statusCalls), n)
        decreases HARD_TIMEOUT_MS / POLL_INTERVAL_MS + 1 - n
      {
        var reply := world.Status(id);
        n := n + 1;
        assert Polls(id, n) == Polls(id, n - 1) + [GetStatus(id)];
        match reply
        case StatusRaises =>
          w := Raised;
          return;
        case Order(filled, price, size) =>
          if filled {
            w := Fill(price, size);
            return;
          }
          world.Sleep(POLL_INTERVAL_MS);
          expired := IsExpired();
      }
      w := TimedOut;
    }

    /** One query of the broker; None when it raises. */
    method Reconcile(id: string, expectedSize: Option<real>, expectedSl: Option<real>, expectedTp: Option<real>)
      returns (report: Option<Report>)
      modifies this`reconciliations, world`trace, world`statusCalls
      ensures report.Some? <==>
        (id != "" ==> world.env.status(old(world.statusCalls)).Order?) && world.env.positions.Positions?
      ensures report.Some? ==>
        && world.trace == old(world.trace) + ReconcileCalls(id)
        && reconciliations == old(reconciliations) + [report.value]
        && Sound(report.value, expectedSize, expectedSl)
        && FirstPosition(world.env.positions.all, report.value)
      ensures report.None? ==> reconciliations == old(reconciliations)
      ensures exists k :: 0 <= k <= |ReconcileCalls(id)| && world.trace == old(world.trace) + ReconcileCalls(id)[..k]
    {
      if id != "" {
        var order := world.Status(id);
        if order.StatusRaises? {
          assert world.trace == old(world.trace) + ReconcileCalls(id)[..1];
          return None;
        }
      }
      var positions := world.OpenPositions();
      assert ReconcileCalls(id)[..|ReconcileCalls(id)|] == ReconcileCalls(id);
      assert world.trace == old(world.trace) + ReconcileCalls(id)[..|ReconcileCalls(id)|];
      if positions.PositionsRaises? {
        return None;
      }
      var held := if positions.all == [] then Position(None, None, None) else positions.all[0];
      var status, mismatches, manual := Matched, [], false;
      if expectedSize.Some? {
        if held.size.None? {
          status, mismatches, manual := MissingPosition, mismatches + [NoPosition], true;
        } else if Abs(held.size.value - expectedSize.value) > SIZE_TOLERANCE {
          status, mismatches, manual := Mismatch, mismatches + [SizeDiffers], true;
        }
      }
      if expectedSl.Some? && held.sl.None? {
        status, mismatches, manual := MissingSlTp, mismatches + [SlTpMissing], true;
      }
      var r := Report(held.size, held.sl, held.tp, status, mismatches, manual);
      reconciliations := reconciliations + [r];
      report := Some(r);
    }

    /** After a timeout: cancel, reconcile once. */
    method HandleTimeout(snap: Snapshot, id: string) returns (r: Result)
      modifies this`reconciliations, world`trace, world`statusCalls
      ensures AfterTimeout(snap, id, old(world.trace), world.trace, r)
      ensures reconciliations == old(reconciliations) + if r.report.Some? then [r.report.value] else []
    {
      world.Cancel(id);
      var report := Reconcile(id, None, None, None);
      r := FRESH.(status := if report.Some? then FailedTimeout else Failed, orderId := id, report := report);
    }

    /** After a fill: stop and target from the fill price, reconcile once. */
    method HandleFill(snap: Snapshot, id: string, fill: Wait) returns (r: Result, ghost handledAt: int)
      requires fill.Fill? && startTime.Some?
      modifies this`reconciliations, this`timeoutTriggered, world
      ensures old(world.now) <= handledAt <= world.now
      ensures AfterReply(Order(true, fill.price, fill.size), snap, id, old(world.trace), world.trace, r,
                         handledAt - startTime.value > 30000)
      ensures reconciliations == old(reconciliations) + if r.report.Some? then [r.report.value] else []
    {
      r := FRESH.(orderId := id);
      handledAt := world.now;
      if fill.price.None? || snap.referencePrice == 0.0 {
        r := r.(status := Failed);
        return;
      }
      var price := fill.price.value;
      var sl, tp := CalculateSl(price, snap.slOffset), CalculateTp(price, snap.tpOffset);
      var slippage := (price - snap.referencePrice) / snap.referencePrice * 100.0;
      var expired := IsExpired();
      handledAt := world.now;
      r := r.(fillPrice := fill.price, size := fill.size, sl := Some(sl), tp := Some(tp), slippage := Some(slippage));
      var report := Reconcile(id, fill.size, Some(sl), Some(tp));
      r := r.(report := report,
              status := if report.None? then Failed else if expired then ExecutedFullLate else Filled);
    }

    /** From the submission on; `calls` is what is asked of the broker. */
    method SubmitAndFollow(snap: Snapshot)
      returns (r: Result, ghost handledAt: int, ghost n: nat, ghost calls: seq<Call>)
      requires startTime.Some? && world.now >= startTime.value
      modifies this`reconciliations, this`timeoutTriggered, world
      ensures old(world.now) <= handledAt <= world.now && world.trace == old(world.trace) + calls
      ensures Flow(world.env, old(world.statusCalls), snap, calls, r, n, handledAt - startTime.value > 30000)
      ensures reconciliations == old(reconciliations) + if r.report.Some? then [r.report.value] else []
    {
      n, handledAt := 0, world.now;
      calls := [SubmitOrder(snap.symbol, snap.size)];
      var submitted := world.Submit(snap.symbol, snap.size);
      if submitted.SubmitRaises? {
        r := FRESH.(status := Failed);
        return;
      }
      var id := submitted.id;
      var wait;
      wait, n := WaitForFill(id);
      calls := [SubmitOrder(snap.symbol, snap.size)] + Polls(id, n);
      ghost var base := calls;
      assert world.trace == old(world.trace) + base;
      if wait.Raised? {
        handledAt := world.now;
        r := FRESH.(status := Failed, orderId := id);
        return;
      }
      var expired := IsExpired();
      if expired && wait.TimedOut? {
        handledAt := world.now;
        r := HandleTimeout(snap, id);
        calls := Shift(old(world.trace), base + [CancelOrder(id)], id, world.trace, r.report);
      } else {
        r, handledAt := HandleFill(snap, id, wait);
        if r.fillPrice.Some? {
          calls := Shift(old(world.trace), base, id, world.trace, r.report);
        }
      }
    }

    /** One run.  An exception from the broker, a fill without a price or a zero
        reference price ends it as FAILED. */
    method Execute(snap: Snapshot)
      returns (r: Result, ghost validatedAt: int, ghost handledAt: int, ghost n: nat, ghost calls: seq<Call>)
      modifies this, world
      ensures old(world.now) <= validatedAt <= handledAt <= world.now
      ensures world.trace == old(world.trace) + calls
      ensures Executed(world.env, old(world.statusCalls), manager.switches, snap, validatedAt, calls, r, n,
                       startTime.Some? && handledAt - startTime.value > 30000)
      ensures reconciliations == old(reconciliations) + if r.report.Some? then [r.report.value] else []
      ensures Preconditions(snap, validatedAt) && SwitchState(manager.switches, snap.symbol) == Off ==>
        startTime.Some? && validatedAt <= startTime.value <= handledAt
    {
      n, calls := 0, [];
      var now := world.ReadClock();
      validatedAt, handledAt := now, now;
      if !Preconditions(snap, now) {
        r := FRESH.(status := Rejected);
        return;
      }
      if manager.IsActive(snap.symbol) {
        r := FRESH.(status := Rejected);
        return;
      }
      var begun := world.ReadClock();
      startTime := Some(begun);
      r, handledAt, n, calls := SubmitAndFollow(snap);
    }
  }

  /** The calls after a common prefix. */
  lemma Shift(prefix: seq<Call>, before: seq<Call>, id: string, trace: seq<Call>, report: Option<Report>)
    returns (calls: seq<Call>)
    requires Reconciled(prefix + before, id, trace, report)
    ensures trace == prefix + calls && Reconciled(before, id, calls, report)
  {
    var k :| 0 <= k <= |ReconcileCalls(id)| && trace == prefix + before + ReconcileCalls(id)[..k]
             && (report.Some? ==> k == |ReconcileCalls(id)|);
    calls := before + ReconcileCalls(id)[..k];
  }

  // ------------------------------------------------------------------ what follows of it

  /** Every run that submits: exactly one order, first; at most one cancel, and only
      when no poll saw a fill; at most one position query, the last call of all; a
      final status other than SUBMITTED; a report unless something raised. */
  lemma FlowSafety(env: Env, s: nat, snap: Snapshot, calls: seq<Call>, r: Result, n: nat, late: bool)
    requires Flow(env, s, snap, calls, r, n, late)
    ensures forall i :: 0 <= i < |calls| ==> (calls[i].SubmitOrder? <==> i == 0)
    ensures forall i :: 0 <= i < |calls| && calls[i].CancelOrder? ==>
      AllPending(env, s, n) && i == n + 1 && r.fillPrice.None?
    ensures forall i :: 0 <= i < |calls| && calls[i] == GetPositions ==> i == |calls| - 1
    ensures r.status in {Filled, ExecutedFullLate, FailedTimeout, Failed}
    ensures r.status == Failed <==> r.report.None?
    ensures r.report.Some? ==> calls[|calls| - 1] == GetPositions
    ensures n <= 301
  {
  }

  /** What a run that ends in a report asks of the broker, in full: the order, n polls, a
      cancel if it timed out, then one reconciliation, which asks for the order only if
      it has an id. */
  lemma CompleteCalls(env: Env, s: nat, snap: Snapshot, calls: seq<Call>, r: Result, n: nat, late: bool)
    requires Flow(env, s, snap, calls, r, n, late) && r.report.Some?
    ensures var id, timedOut := r.orderId, r.status == FailedTimeout;
      var asked := 1 + n + if timedOut then 1 else 0;
      && calls[0] == SubmitOrder(snap.symbol, snap.size)
      && (forall i :: 1 <= i <= n ==> calls[i] == GetStatus(id))
      && (timedOut ==> calls[n + 1] == CancelOrder(id))
      && (if id == "" then calls[asked..] == [GetPositions] else calls[asked..] == [GetStatus(id), GetPositions])
  {
    var id := env.submit.id;
    var base := [SubmitOrder(snap.symbol, snap.size)] + Polls(id, n);
    var before := if r.status == FailedTimeout then base + [CancelOrder(id)] else base;
    assert ReconcileCalls(id)[..|ReconcileCalls(id)|] == ReconcileCalls(id);
    assert calls == before + ReconcileCalls(id);
  }

  /** Unless the submission raised, the order is cancelled, right after the polls, exactly
      when none of them saw anything but a pending order; the thirty seconds are then over. */
  lemma CancelledIff(env: Env, s: nat, snap: Snapshot, calls: seq<Call>, r: Result, n: nat, late: bool)
    requires Flow(env, s, snap, calls, r, n, late) && env.submit.OrderId?
    ensures (exists i :: 0 <= i < |calls| && calls[i].CancelOrder?) <==> AllPending(env, s, n)
    ensures AllPending(env, s, n) ==> late && |calls| > n + 1 && calls[n + 1] == CancelOrder(env.submit.id)
  {
    FlowSafety(env, s, snap, calls, r, n, late);
    if AllPending(env, s, n) {
      assert n >= 1 ==> Pending(env.status(s + n - 1));
      assert calls[n + 1].CancelOrder?;
    }
  }

  /** A status poll that raises ends the run there, FAILED: it is the last call, so the
      order is neither cancelled nor reconciled, however much of the time is left. */
  lemma RaisingPollAbandons(env: Env, s: nat, snap: Snapshot, calls: seq<Call>, r: Result, n: nat, late: bool, k: nat)
    requires Flow(env, s, snap, calls, r, n, late) && env.submit.OrderId?
    requires k < n && env.status(s + k).StatusRaises?
    ensures k == n - 1 && calls == [SubmitOrder(snap.symbol, snap.size)] + Polls(env.submit.id, n)
    ensures r == FRESH.(status := Failed, orderId := env.submit.id)
  {
    assert !Pending(env.status(s + k));
  }

  const UNREACHABLE := Env(i => 0, OrderId("1"), i => StatusRaises, PositionsRaises)

  /** The run whose first poll raises. */
  lemma RaisingPollExample(snap: Snapshot)
    ensures Flow(UNREACHABLE, 0, snap, [SubmitOrder(snap.symbol, snap.size), GetStatus("1")],
                 FRESH.(status := Failed, orderId := "1"), 1, false)
  {
    assert Polls("1", 1) == [GetStatus("1")];
  }

  /** A run has a fill price if and only if its last poll reported a fill with a price and
      the reference price is not zero; price and size are then those reported, and a run
      that is not failed is late exactly when the thirty seconds were over. */
  lemma FilledIff(env: Env, s: nat, snap: Snapshot, calls: seq<Call>, r: Result, n: nat, late: bool)
    requires Flow(env, s, snap, calls, r, n, late)
    ensures r.fillPrice.Some? <==>
      && env.submit.OrderId? && n >= 1 && snap.referencePrice != 0.0
      && env.status(s + n - 1).Order? && env.status(s + n - 1).filled && env.status(s + n - 1).price.Some?
    ensures r.fillPrice.Some? ==> env.status(s + n - 1) == Order(true, r.fillPrice, r.size)
    ensures r.fillPrice.Some? && r.status != Failed ==> r.status == if late then ExecutedFullLate else Filled
    ensures env.submit.OrderId? ==> r.orderId == env.submit.id
  {
    if env.submit.OrderId? && n >= 1 {
      assert AllPending(env, s, n) ==> Pending(env.status(s + n - 1));
    }
  }

  /** On a fill the stop lies below the fill price and the target above it exactly
      when the fill price is positive, whatever the reference price was. */
  lemma FillBrackets(env: Env, s: nat, snap: Snapshot, calls: seq<Call>, r: Result, n: nat, late: bool, now: int)
    requires Flow(env, s, snap, calls, r, n, late) && Preconditions(snap, now)
    requires r.status == Filled || r.status == ExecutedFullLate
    ensures r.fillPrice.Some? && r.sl.Some? && r.tp.Some? && r.slippage.Some? && snap.referencePrice != 0.0
    ensures var p := r.fillPrice.value;
      && r.sl.value - p == p * snap.slOffset && r.tp.value - p == p * snap.tpOffset
      && r.slippage.value * snap.referencePrice == (p - snap.referencePrice) * 100.0
    ensures r.sl.value < r.fillPrice.value < r.tp.value <==> r.fillPrice.value > 0.0
  {
  }

  /** A timed-out run is reported as matched whatever positions the broker holds:
      without an expectation nothing is compared, so a phantom position passes. */
  lemma TimeoutAlwaysMatches(env: Env, s: nat, snap: Snapshot, calls: seq<Call>, r: Result, n: nat, late: bool)
    requires Flow(env, s, snap, calls, r, n, late) && r.status == FailedTimeout
    ensures r.report.Some? && r.report.value.status == Matched && !r.report.value.manual
  {
  }

  /** From the inputs: a run asks anything of the broker, and then first of all submits
      its order, if and only if the advisory has not expired, has an id, a positive size
      and offsets on the right sides, and no switch is on under the key of its symbol. */
  lemma SubmitsIff(
    env: Env, s: nat, switches: Switches, snap: Snapshot, validatedAt: int,
    calls: seq<Call>, r: Result, n: nat, late: bool)
    requires Executed(env, s, switches, snap, validatedAt, calls, r, n, late)
    ensures calls != [] <==>
      && validatedAt <= snap.expiration && snap.advisoryId != ""
      && snap.size > 0.0 && snap.slOffset < 0.0 < snap.tpOffset
      && var key := if snap.symbol == "" then "global" else snap.symbol;
      key !in switches || switches[key] == Off
    ensures calls != [] ==> calls[0] == SubmitOrder(snap.symbol, snap.size) && r.status != Rejected
    ensures calls == [] ==> r.status == Rejected && r.report.None? && r.fillPrice.None?
  {
  }

  /** With the global switch on and the preconditions met, a run does submit an order,
      as its first call, exactly unless its symbol is empty, is named "global", or has
      a switch of its own that is on. */
  lemma GlobalSwitchBlocks(
    env: Env, s: nat, switches: Switches, snap: Snapshot, validatedAt: int,
    calls: seq<Call>, r: Result, n: nat, late: bool)
    requires Executed(env, s, switches, snap, validatedAt, calls, r, n, late)
    requires "global" in switches && switches["global"] != Off && Preconditions(snap, validatedAt)
    ensures (calls != [] && calls[0] == SubmitOrder(snap.symbol, snap.size)) <==>
      !(snap.symbol == "" || snap.symbol == "global" || (snap.symbol in switches && switches[snap.symbol] != Off))
  {
  }

  const DEFAULTS := Snapshot("a", 1.0, -0.01, 0.02, 1.0, "EURUSD", 0)

  /** All trading is switched off, and the order goes out. */
  lemma GlobalSwitchExample(env: Env, s: nat, calls: seq<Call>, r: Result, n: nat, late: bool)
    requires Executed(env, s, map["global" := Active], DEFAULTS, 0, calls, r, n, late)
    ensures calls != [] && calls[0] == SubmitOrder("EURUSD", 1.0)
  {
    GlobalSwitchBlocks(env, s, map["global" := Active], DEFAULTS, 0, calls, r, n, late);
  }
}
