// The sliding error budget of the notifiers: a pruned event list and a breach flag
// that must agree with the whole registration history.
module ErrorBudget {
  import opened Common

  datatype Event = Event(at: real, ok: bool)

  /** The events younger than the window. */
  function Within(events: seq<Event>, now: real, window: real): seq<Event>
    decreases |events|
  {
    if events == [] then [] else
    var e := events[|events| - 1];
    Within(events[..|events| - 1], now, window) + if now - e.at < window then [e] else []
  }

  function Fails(events: seq<Event>): nat
    decreases |events|
  {
    if events == [] then 0 else
    Fails(events[..|events| - 1]) + if events[|events| - 1].ok then 0 else 1
  }

  function FailFraction(events: seq<Event>): real {
    if events == [] then 0.0 else Fails(events) as real / |events| as real
  }

  /** What the budget should say after the first n registrations. */
  ghost predicate Over(history: seq<Event>, n: nat, window: real, limit: real)
    requires n <= |history|
  {
    n > 0 && FailFraction(Within(history[..n], history[n - 1].at, window)) > limit
  }

  /** How often the budget went from kept to exceeded. */
  ghost function Breaches(history: seq<Event>, n: nat, window: real, limit: real): nat
    requires n <= |history|
  {
    if n == 0 then 0 else
    Breaches(history, n - 1, window, limit)
    + if Over(history, n, window, limit) && !Over(history, n - 1, window, limit) then 1 else 0
  }

  ghost predicate Monotone(history: seq<Event>) {
    forall i, j :: 0 <= i < j < |history| ==> history[i].at <= history[j].at
  }

  lemma WithinAppend(events: seq<Event>, e: Event, now: real, window: real)
    ensures Within(events + [e], now, window) == Within(events, now, window) + if now - e.at < window then [e] else []
  {
    assert (events + [e])[..|events|] == events;
  }

  /** Pruning twice at growing times is pruning once at the later time. */
  lemma {:induction false} PruneAgain(events: seq<Event>, t: real, now: real, window: real)
    requires t <= now
    ensures Within(Within(events, t, window), now, window) == Within(events, now, window)
    decreases |events|
  {
    if events == [] {
    } else {
      var front, e := events[..|events| - 1], events[|events| - 1];
      PruneAgain(front, t, now, window);
      if t - e.at < window {
        WithinAppend(Within(front, t, window), e, now, window);
      } else {
        assert Within(front, t, window) + [] == Within(front, t, window);
      }
    }
  }

  lemma {:induction false} HistoryFrame(history: seq<Event>, e: Event, n: nat, window: real, limit: real)
    requires n <= |history|
    ensures Over(history + [e], n, window, limit) == Over(history, n, window, limit)
    ensures Breaches(history + [e], n, window, limit) == Breaches(history, n, window, limit)
  {
    assert (history + [e])[..n] == history[..n];
    if n == 0 {
    } else {
      HistoryFrame(history, e, n - 1, window, limit);
    }
  }

  /** The positions of the registrations within the window at that time, and of those
      among them that failed. */
  ghost function Recent(history: seq<Event>, now: real, window: real): set<nat> {
    set i: nat | i < |history| && now - history[i].at < window
  }

  ghost function Failed(history: seq<Event>, now: real, window: real): set<nat> {
    set i: nat | i < |history| && now - history[i].at < window && !history[i].ok
  }

  /** After the last registration more than the given share of the recent ones failed. */
  ghost predicate Exceeded(history: seq<Event>, window: real, limit: real) {
    history != [] &&
    var now := history[|history| - 1].at;
    ShareAbove(|Failed(history, now, window)|, |Recent(history, now, window)|, limit)
  }

  ghost predicate ShareAbove(failed: nat, total: nat, limit: real) {
    if total == 0 then limit < 0.0 else failed as real > limit * total as real
  }

  lemma SetsStep(front: seq<Event>, e: Event, now: real, window: real)
    ensures var n, inside := |front|, now - e.at < window;
      && n !in Recent(front, now, window) && n !in Failed(front, now, window)
      && Recent(front + [e], now, window) == Recent(front, now, window) + (if inside then {n} else {})
      && Failed(front + [e], now, window) == Failed(front, now, window) + if inside && !e.ok then {n} else {}
  {
    var events := front + [e];
    forall i: nat | i < |events| ensures events[i] == if i < |front| then front[i] else e { }
  }

  lemma FailsAppend(events: seq<Event>, e: Event)
    ensures Fails(events + [e]) == Fails(events) + if e.ok then 0 else 1
  {
    assert (events + [e])[..|events|] == events;
  }

  lemma {:induction false} WithinSizes(events: seq<Event>, now: real, window: real)
    ensures |Within(events, now, window)| == |Recent(events, now, window)|
    ensures Fails(Within(events, now, window)) == |Failed(events, now, window)|
    decreases |events|
  {
    if events == [] {
    } else {
      var front, e := events[..|events| - 1], events[|events| - 1];
      WithinSizes(front, now, window);
      assert events == front + [e];
      WithinAppend(front, e, now, window);
      SetsStep(front, e, now, window);
      hide Recent, Failed, Within, Fails;
      var w := Within(front, now, window);
      if now - e.at < window { FailsAppend(w, e); } else { assert w + [] == w; }
    }
  }

  /** The list of the recent registrations, each as often as it was made. */
  lemma {:induction false} WithinCount(events: seq<Event>, now: real, window: real, e: Event)
    ensures multiset(Within(events, now, window))[e] == if now - e.at < window then multiset(events)[e] else 0
    decreases |events|
  {
    if events == [] {
    } else {
      var front, last := events[..|events| - 1], events[|events| - 1];
      WithinCount(front, now, window, e);
      assert events == front + [last];
      WithinAppend(front, last, now, window);
    }
  }

  lemma FractionOver(w: seq<Event>, limit: real)
    ensures FailFraction(w) > limit <==> ShareAbove(Fails(w), |w|, limit)
  {
    hide Fails;
    if w != [] { Share(Fails(w) as real, |w| as real, limit); }
  }

  lemma OverMeaning(history: seq<Event>, window: real, limit: real)
    ensures Over(history, |history|, window, limit) <==> Exceeded(history, window, limit)
  {
    if history != [] {
      var now := history[|history| - 1].at;
      assert history[..|history|] == history;
      WithinSizes(history, now, window);
      FractionOver(Within(history, now, window), limit);
      hide Within, Fails, Recent, Failed, FailFraction, ShareAbove;
    }
  }

  /** What holds of the pruned list and of the budget after the history h. */
  lemma Recorded(h: seq<Event>, now: real, window: real, limit: real)
    ensures Over(h, |h|, window, limit) <==> Exceeded(h, window, limit)
    ensures CountsRecent(Within(h, now, window), h, now, window)
  {
    OverMeaning(h, window, limit);
    forall e ensures multiset(Within(h, now, window))[e] == if now - e.at < window then multiset(h)[e] else 0 {
      WithinCount(h, now, window, e);
    }
  }

  /** The list holds each recent registration as often as it was made, and no other. */
  ghost predicate CountsRecent(events: seq<Event>, history: seq<Event>, now: real, window: real) {
    forall e :: multiset(events)[e] == if now - e.at < window then multiset(history)[e] else 0
  }

  lemma Share(f: real, n: real, limit: real)
    requires n > 0.0
    ensures f / n > limit <==> f > limit * n
  {
    assert (f / n) * n == f;
    if f / n > limit { assert (f / n) * n > limit * n; }
    if f / n <= limit { assert (f / n) * n <= limit * n; }
  }

  class ErrorBudgetTracker {
    const window: real
    const limit: real
    var events: seq<Event>
    var breached: bool
    ghost var history: seq<Event>
    ghost var actions: nat

    /** With a clock that never runs backwards: the list is the history cut to the
        window, the flag is the budget's state, the actions count its breaches. */
    ghost predicate Valid()
      reads this
    {
      && Monotone(history)
      && events == (if history == [] then [] else Within(history, history[|history| - 1].at, window))
      && breached == Over(history, |history|, window, limit)
      && actions == Breaches(history, |history|, window, limit)
    }

    constructor (window: real, limit: real)
      ensures Valid() && this.window == window && this.limit == limit && history == []
    {
      this.window, this.limit := window, limit;
      events, breached, history, actions := [], false, [], 0;
    }

    /** The flag says whether too large a share of the recent registrations failed, and
        the list holds exactly those, as counted over the history itself. */
    lemma Meaning()
      requires Valid() && history != []
      ensures breached <==> Exceeded(history, window, limit)
      ensures CountsRecent(events, history, history[|history| - 1].at, window)
    {
      hide Within, Over, Exceeded, CountsRecent;
      Recorded(history, history[|history| - 1].at, window, limit);
    }

    method Register(ok: bool, now: real)
      requires Valid() && (history != [] ==> history[|history| - 1].at <= now)
      modifies this
      ensures Valid() && history == old(history) + [Event(now, ok)]
      ensures actions == old(actions) + if breached && !old(breached) then 1 else 0
    {
      hide Within, FailFraction, Over, Breaches;
      Registered(history, events, breached, actions, Event(now, ok), window, limit);
      history := history + [Event(now, ok)];
      events := Within(events + [Event(now, ok)], now, window);
      var fraction := FailFraction(events);
      if fraction > limit && !breached {
        breached := true;
        actions := actions + 1;
      } else if fraction <= limit {
        breached := false;
      }
    }
  }

  /** How list, flag and counter have to follow one more registration. */
  lemma Registered(h: seq<Event>, events: seq<Event>, breached: bool, actions: nat, e: Event, window: real, limit: real)
    requires h != [] ==> h[|h| - 1].at <= e.at
    requires events == if h == [] then [] else Within(h, h[|h| - 1].at, window)
    requires breached == Over(h, |h|, window, limit) && actions == Breaches(h, |h|, window, limit)
    ensures var now := Within(events + [e], e.at, window);
      var over := FailFraction(now) > limit;
      && now == Within(h + [e], e.at, window)
      && over == Over(h + [e], |h| + 1, window, limit)
      && Breaches(h + [e], |h| + 1, window, limit) == actions + if over && !breached then 1 else 0
  {
    Pruned(h, events, e, window);
    HistoryFrame(h, e, |h|, window, limit);
    assert (h + [e])[..|h| + 1] == h + [e];
  }

  lemma Pruned(history: seq<Event>, events: seq<Event>, e: Event, window: real)
    requires history != [] ==> history[|history| - 1].at <= e.at
    requires events == if history == [] then [] else Within(history, history[|history| - 1].at, window)
    ensures Within(events + [e], e.at, window) == Within(history + [e], e.at, window)
  {
    WithinAppend(events, e, e.at, window);
    WithinAppend(history, e, e.at, window);
    if history != [] { PruneAgain(history, history[|history| - 1].at, e.at, window); }
  }
}
