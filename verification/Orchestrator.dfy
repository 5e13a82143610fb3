// The orchestrator object as far as its in-memory dead-letter list goes: the
// list and the dicts it shares with a running pass are fields that the methods
// update step by step, proved against the functions of DeadLetterList.
module Orchestrator {
  import opened Common
  import opened DeadLetterList
  import opened DeadLetterListProofs

  class DecisionOrchestrator {
    var persistDlq: seq<Ref>
    var entries: seq<Entry>
    ghost var stored: seq<Ref>
    ghost var dropped: seq<Ref>
    ghost var tries: seq<Try>
    ghost var clock: real

    ghost function View(): State
      reads this
    {
      State(persistDlq, entries, stored, dropped, tries, clock)
    }

    ghost predicate Valid()
      reads this
    {
      Closed(View())
    }

    constructor ()
      ensures Valid() && View() == State([], [], [], [], [], 0.0)
    {
      persistDlq, entries, stored, dropped, tries, clock := [], [], [], [], [], 0.0;
    }

    /** Both producers: an adapter call, or a failed persist of a fresh decision. */
    method PublishToDlq(a: Arrival)
      requires Valid()
      modifies this
      ensures Valid() && View() == Enqueue(old(View()), a)
      ensures persistDlq == old(persistDlq) + [|old(entries)|]
      ensures |entries| == |old(entries)| + 1 && entries[..|old(entries)|] == old(entries)
      ensures IsNew(entries[|old(entries)|], a)
    {
      persistDlq := persistDlq + [|entries|];
      entries := entries + [Entry(a.decision, a.error, a.ts, 0, 0.0)];
    }

    /** Other tasks run while the insert for r is awaited, and can only append; time passes. */
    method AwaitInsert(r: Ref, now: real, arrivals: seq<Arrival>, ghost elapsed: Duration)
      requires Valid()
      modifies this
      ensures Valid()
      ensures View() == EnqueueAll(old(View()), arrivals).(
                          tries := old(tries) + [Try(r, now, old(clock))], clock := old(clock) + elapsed)
    {
      var k := 0;
      while k < |arrivals|
        invariant k <= |arrivals| && Valid()
        invariant EnqueueAll(View(), arrivals[k..]) == EnqueueAll(old(View()), arrivals)
        invariant tries == old(tries) && clock == old(clock)
      {
        assert arrivals[k..][0] == arrivals[k] && arrivals[k..][1..] == arrivals[k + 1..];
        PublishToDlq(arrivals[k]);
        k := k + 1;
      }
      assert arrivals[k..] == [];
      tries := tries + [Try(r, now, clock)];
      clock := clock + elapsed;
    }

    /** `list.remove`: the first entry equal to r, by value; nothing if there is none. */
    method Remove(r: Ref)
      requires Valid() && r < |entries|
      modifies this`persistDlq
      ensures Valid()
      ensures persistDlq == Without(old(persistDlq), EqualSlot(entries, old(persistDlq), r, 0))
    {
      var i := 0;
      while i < |persistDlq|
        invariant i <= |persistDlq| && persistDlq == old(persistDlq)
        invariant EqualSlot(entries, persistDlq, r, i) == EqualSlot(entries, persistDlq, r, 0)
      {
        if entries[persistDlq[i]] == entries[r] {
          persistDlq := persistDlq[..i] + persistDlq[i + 1..];
          return;
        }
        i := i + 1;
      }
    }

    /** Puts r into the first slot that holds it or holds its `ts`. */
    method UpdateStored(r: Ref)
      requires Valid() && r < |entries|
      modifies this`persistDlq
      ensures Valid()
      ensures var i := SlotOf(entries, old(persistDlq), r, 0);
        persistDlq == if i < |old(persistDlq)| then old(persistDlq)[i := r] else old(persistDlq)
    {
      var i := 0;
      while i < |persistDlq|
        invariant i <= |persistDlq| && persistDlq == old(persistDlq)
        invariant SlotOf(entries, persistDlq, r, i) == SlotOf(entries, persistDlq, r, 0)
      {
        if persistDlq[i] == r || entries[persistDlq[i]].ts == entries[r].ts {
          persistDlq := persistDlq[i := r];
          return;
        }
        i := i + 1;
      }
    }

    /** The pass over a snapshot of the list; `now` is its one clock reading.  script[k] is the reply to the insert
        of the k-th snapshot entry; it is not consulted when that entry is not due. */
    method RetryOnce(now: real, cfg: Config, script: seq<Reply>)
      requires Valid() && |script| == |persistDlq|
      modifies this
      ensures Valid() && View() == Pass(old(View()), script, now, cfg)
    {
      hide Attempt;
      clock := now;
      var snapshot := persistDlq;
      for k := 0 to |snapshot|
        invariant Valid() && |old(entries)| <= |entries|
        invariant View() == PassTo(old(View()), script, now, cfg, k)
      {
        var r := snapshot[k];
        if entries[r].nextAttempt <= now {
          RetryEntry(r, now, cfg, script[k]);
        } else {
          NotDue(View(), r, now, cfg, script[k]);
        }
      }
    }

    method RetryEntry(r: Ref, now: real, cfg: Config, reply: Reply)
      requires Valid() && r < |entries| && Due(View(), r, now)
      modifies this
      ensures Valid() && View() == Attempt(old(View()), r, now, cfg, reply)
      ensures reply.insert.Raised? ==>
        r < |entries| && PutOff(old(entries)[r], entries[r], reply.insert.error, now, cfg)
    {
      AttemptContent(View(), r, now, cfg, reply);
      EnqueueAllFacts(View(), reply.arrivals);
      hide PutOff, IsNew, AfterFailure;
      AwaitInsert(r, now, reply.arrivals, reply.elapsed);
      match reply.insert {
        case Stored =>
          Remove(r);
          stored := stored + [r];
        case Raised(error) =>
          RecordFailure(r, error, now, cfg);
      }
    }

    /** What follows a failed insert of r. */
    method RecordFailure(r: Ref, error: string, now: real, cfg: Config)
      requires Valid() && r < |entries|
      modifies this
      ensures Valid() && View() == AfterFailure(old(View()), r, error, now, cfg)
      ensures PutOff(old(entries)[r], entries[r], error, now, cfg)
    {
      FailedPutsOff(entries[r], error, now, cfg);
      hide PutOff;
      var attempts := entries[r].attempts + 1;
      var delay := MinReal(cfg.maxDelay, cfg.baseDelay * Pow2(attempts - 1));
      entries := entries[r := entries[r].(attempts := attempts, error := error, nextAttempt := now + delay)];
      assert entries[r] == Failed(old(entries)[r], error, now, cfg);
      UpdateStored(r);
      if attempts >= cfg.maxRetries {
        Remove(r);
        dropped := dropped + [r];
      }
    }
  }
}
