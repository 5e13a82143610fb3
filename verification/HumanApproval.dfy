// The human approval manager: two maps that must agree with the append-only audit
// log, and the two readers of those maps.
module HumanApproval {
  import opened Common

  datatype Decision = Approved | Rejected | Expired

  /** Empty strings and a missing expiration are what the source refuses. */
  datatype Snapshot = Snapshot(id: string, htfBias: string, mode: string, price: real, expiration: Option<int>)

  datatype Entry = Entry(id: string, user: string, requested: int, received: int, snapshot: Snapshot, outcome: Decision)

  predicate Complete(s: Snapshot) {
    s.id != "" && s.htfBias != "" && s.mode != "" && s.expiration.Some?
  }

  /** The stage-7 check, on a snapshot that has an expiration. */
  predicate IsExpired(s: Snapshot, now: int)
    requires s.expiration.Some?
  {
    now > s.expiration.value
  }

  // ------------------------------------------------------------- meaning of the log

  /** The last entry for id that decided anything, that is, did not expire. */
  function LastDecided(log: seq<Entry>, id: string): (e: Option<Entry>)
    ensures e.Some? ==> e.value in log && e.value.id == id && e.value.outcome != Expired
    decreases |log|
  {
    if log == [] then None
    else if log[|log| - 1].id == id && log[|log| - 1].outcome != Expired then Some(log[|log| - 1])
    else LastDecided(log[..|log| - 1], id)
  }

  function LastApproved(log: seq<Entry>, id: string): (e: Option<Entry>)
    ensures e.Some? ==> e.value in log && e.value.id == id && e.value.outcome == Approved
    decreases |log|
  {
    if log == [] then None
    else if log[|log| - 1].id == id && log[|log| - 1].outcome == Approved then Some(log[|log| - 1])
    else LastApproved(log[..|log| - 1], id)
  }

  lemma LogStep(log: seq<Entry>, e: Entry, id: string)
    ensures LastDecided(log + [e], id) == if e.id == id && e.outcome != Expired then Some(e) else LastDecided(log, id)
    ensures LastApproved(log + [e], id)
         == if e.id == id && e.outcome == Approved then Some(e) else LastApproved(log, id)
  {
    assert (log + [e])[..|log|] == log;
  }

  /** If the last decision is an approval it is the last approval. */
  lemma {:induction false} DecidedApproved(log: seq<Entry>, id: string)
    requires LastDecided(log, id).Some? && LastDecided(log, id).value.outcome == Approved
    ensures LastApproved(log, id) == LastDecided(log, id)
    decreases |log|
  {
    var last := log[|log| - 1];
    if last.id == id && last.outcome != Expired {
    } else {
      DecidedApproved(log[..|log| - 1], id);
    }
  }

  /** Execution is allowed: the last decision approved, and its snapshot has not expired. */
  ghost predicate Executable(log: seq<Entry>, id: string, now: int) {
    var e := LastDecided(log, id);
    && e.Some? && e.value.outcome == Approved
    && e.value.snapshot.expiration.Some? && now <= e.value.snapshot.expiration.value
  }

  ghost predicate AllComplete(log: seq<Entry>) {
    forall i :: 0 <= i < |log| ==> log[i].snapshot.id == log[i].id && Complete(log[i].snapshot)
  }

  class HumanApprovalManager {
    var approvals: map<string, Snapshot>
    var approvalOutcomes: map<string, Decision>
    var auditLog: seq<Entry>

    /** Both maps are folds of the log. */
    ghost predicate Valid()
      reads this
    {
      && AllComplete(auditLog)
      && (forall id: string :: (id in approvalOutcomes <==> LastDecided(auditLog, id).Some?)
            && (id in approvalOutcomes ==> approvalOutcomes[id] == LastDecided(auditLog, id).value.outcome))
      && (forall id: string :: (id in approvals <==> LastApproved(auditLog, id).Some?)
            && (id in approvals ==> approvals[id] == LastApproved(auditLog, id).value.snapshot))
    }

    constructor ()
      ensures Valid() && auditLog == []
    {
      approvals, approvalOutcomes, auditLog := map[], map[], [];
    }

    /** None is the ValueError for an incomplete snapshot.  The clock is read for the
        request, for the expiry check and for the receipt. */
    method ApproveAdvisory(s: Snapshot, user: string, approve: bool, requested: int, checked: int, received: int)
      returns (outcome: Option<Decision>)
      requires Valid()
      modifies this
      ensures Valid()
      ensures outcome.None? <==> s.id == "" || s.htfBias == "" || s.mode == "" || s.expiration.None?
      ensures outcome.None? ==> auditLog == old(auditLog)
      ensures outcome.Some? ==>
        && auditLog == old(auditLog) + [Entry(s.id, user, requested, received, s, outcome.value)]
        && outcome.value
           == if checked > s.expiration.value then Expired else if approve then Approved else Rejected
    {
      if s.id == "" || s.htfBias == "" || s.mode == "" || s.expiration.None? {
        return None;
      }
      var decision := Expired;
      if !IsExpired(s, checked) {
        if approve {
          decision := Approved;
          approvals := approvals[s.id := s];
        } else {
          decision := Rejected;
        }
        approvalOutcomes := approvalOutcomes[s.id := decision];
      }
      var entry := Entry(s.id, user, requested, received, s, decision);
      forall id: string { LogStep(auditLog, entry, id); }
      auditLog := auditLog + [entry];
      outcome := Some(decision);
    }

    lemma Readers(id: string)
      requires Valid()
      ensures id in approvalOutcomes && approvalOutcomes[id] == Approved ==>
        id in approvals && approvals[id] == LastDecided(auditLog, id).value.snapshot && Complete(approvals[id])
    {
      if id in approvalOutcomes && approvalOutcomes[id] == Approved {
        DecidedApproved(auditLog, id);
      }
    }

    method ExecuteIfApproved(id: string, now: int) returns (ok: bool)
      requires Valid()
      ensures ok <==> Executable(auditLog, id, now)
    {
      if id !in approvalOutcomes || approvalOutcomes[id] != Approved {
        return false;
      }
      Readers(id);
      if id !in approvals {
        return false;
      }
      return !IsExpired(approvals[id], now);
    }

    method IsApprovalValid(id: string, now: int) returns (ok: bool)
      requires Valid()
      ensures ok <==> Executable(auditLog, id, now)
    {
      if id !in approvalOutcomes || approvalOutcomes[id] != Approved {
        return false;
      }
      Readers(id);
      if id !in approvals {
        return false;
      }
      var expired := IsExpired(approvals[id], now);
      return !expired;
    }
  }

  /** Once blocked, blocked for good, however the log grows and the clock advances,
      unless the id is approved again. */
  lemma {:induction false} StaysBlocked(log: seq<Entry>, more: seq<Entry>, id: string, now: int, later: int)
    requires !Executable(log, id, now) && now <= later
    requires forall i :: 0 <= i < |more| ==> !(more[i].id == id && more[i].outcome == Approved)
    ensures !Executable(log + more, id, later)
    decreases |more|
  {
    if more == [] {
      assert log + more == log;
    } else {
      var front, e := more[..|more| - 1], more[|more| - 1];
      StaysBlocked(log, front, id, now, later);
      assert log + more == (log + front) + [e];
      LogStep(log + front, e, id);
    }
  }

  /** A rejection blocks at once; an attempt to approve an expired snapshot revokes
      nothing. */
  lemma EntryEffect(log: seq<Entry>, e: Entry, now: int)
    ensures e.outcome == Rejected ==> !Executable(log + [e], e.id, now)
    ensures e.outcome == Expired ==> (Executable(log + [e], e.id, now) <==> Executable(log, e.id, now))
    ensures forall id: string :: id != e.id ==> (Executable(log + [e], id, now) <==> Executable(log, id, now))
  {
    forall id: string { LogStep(log, e, id); }
  }
}
