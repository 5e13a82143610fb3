// One-pass scans over trade results: drawdown and streaks of the replay runner,
// loss streaks and grouped counts of the outcome statistics.
module ReplayScans {
  import opened Common

  // ----------------------------------------------------------------------- definitions

  /** Sum of the first n values. */
  function Prefix(r: seq<real>, n: nat): real
    requires n <= |r|
  {
    if n == 0 then 0.0 else Prefix(r, n - 1) + r[n - 1]
  }

  /** The largest fall of the equity curve, from a point to itself or a later one. */
  ghost predicate MaxDrawdown(r: seq<real>, dd: real) {
    DrawdownTo(r, |r|, dd)
  }

  /** The same over the first n points. */
  ghost predicate DrawdownTo(r: seq<real>, n: nat, dd: real)
    requires n <= |r|
  {
    && (forall i, j :: 0 <= i <= j <= n ==> Prefix(r, i) - Prefix(r, j) <= dd)
    && (exists i, j :: 0 <= i <= j <= n && dd == Prefix(r, i) - Prefix(r, j))
  }

  ghost predicate AllTrue(b: seq<bool>, i: nat, j: nat)
    requires i <= j <= |b|
  {
    forall k :: i <= k < j ==> b[k]
  }

  /** m is the length of a longest contiguous run of true. */
  ghost predicate LongestRun(b: seq<bool>, m: nat) {
    && (forall i, j :: 0 <= i <= j <= |b| && AllTrue(b, i, j) ==> j - i <= m)
    && (exists i, j :: 0 <= i <= j <= |b| && AllTrue(b, i, j) && j - i == m)
  }

  /** m is the length of the longest run of true at the end. */
  ghost predicate TrailingRun(b: seq<bool>, m: nat) {
    m <= |b| && AllTrue(b, |b| - m, |b|) && (m < |b| ==> !b[|b| - m - 1])
  }

  lemma NoRuns()
    ensures TrailingRun([], 0) && LongestRun([], 0)
  {
    assert AllTrue([], 0, 0);
  }

  lemma RunsExtend(b: seq<bool>, x: bool, current: nat, longest: nat)
    requires TrailingRun(b, current) && LongestRun(b, longest)
    ensures TrailingRun(b + [x], if x then current + 1 else 0)
    ensures LongestRun(b + [x], if x && current + 1 > longest then current + 1 else longest)
  {
    var c := b + [x];
    var m := if x && current + 1 > longest then current + 1 else longest;
    forall i, j | 0 <= i <= j <= |c| && AllTrue(c, i, j) ensures j - i <= m {
      if j <= |b| {
        assert AllTrue(b, i, j) by { forall k | i <= k < j ensures b[k] { assert c[k]; } }
      } else if i < j {
        assert c[|b|];
        if current < |b| { assert c[|b| - current - 1] == b[|b| - current - 1]; }
      }
    }
    if m == longest {
      var i, j :| 0 <= i <= j <= |b| && AllTrue(b, i, j) && j - i == m;
      assert AllTrue(c, i, j);
    } else {
      assert AllTrue(c, |b| - current, |c|);
    }
  }

  function Negative(r: seq<real>): seq<bool> {
    seq(|r|, i requires 0 <= i < |r| => r[i] < 0.0)
  }

  function Positive(r: seq<real>): seq<bool> {
    seq(|r|, i requires 0 <= i < |r| => r[i] > 0.0)
  }

  // ------------------------------------------------------------------- drawdown, streaks

  /** The highest of the first n points. */
  ghost predicate Peak(r: seq<real>, n: nat, peak: real)
    requires n <= |r|
  {
    && (forall i :: 0 <= i <= n ==> Prefix(r, i) <= peak)
    && (exists i :: 0 <= i <= n && Prefix(r, i) == peak)
  }

  /** The equity loop; the source skips it when there is no value. */
  method Drawdown(r: seq<real>) returns (maxDd: real)
    ensures MaxDrawdown(r, maxDd)
  {
    hide Peak, DrawdownTo;
    var equity, peak := 0.0, 0.0;
    maxDd := 0.0;
    DrawdownStart(r);
    for n := 0 to |r|
      invariant equity == Prefix(r, n) && Peak(r, n, peak) && DrawdownTo(r, n, maxDd)
    {
      equity := equity + r[n];
      PeakStep(r, n, peak);
      if equity > peak {
        peak := equity;
      }
      var dd := peak - equity;
      DrawdownStep(r, n, peak, maxDd);
      maxDd := if dd > maxDd then dd else maxDd;
    }
  }

  lemma DrawdownStart(r: seq<real>)
    ensures Peak(r, 0, 0.0) && DrawdownTo(r, 0, 0.0)
  {
    assert Prefix(r, 0) == 0.0 && Prefix(r, 0) - Prefix(r, 0) == 0.0;
  }

  lemma PeakStep(r: seq<real>, n: nat, peak: real)
    requires n < |r| && Peak(r, n, peak)
    ensures Peak(r, n + 1, if Prefix(r, n + 1) > peak then Prefix(r, n + 1) else peak)
  {
    hide Prefix;
  }

  lemma DrawdownStep(r: seq<real>, n: nat, peak: real, dd: real)
    requires n < |r| && DrawdownTo(r, n, dd) && Peak(r, n + 1, peak)
    ensures DrawdownTo(r, n + 1, if peak - Prefix(r, n + 1) > dd then peak - Prefix(r, n + 1) else dd)
  {
    hide Prefix;
    var dd' := if peak - Prefix(r, n + 1) > dd then peak - Prefix(r, n + 1) else dd;
    if dd' == dd {
      var i, j :| 0 <= i <= j <= n && dd == Prefix(r, i) - Prefix(r, j);
      assert dd' == Prefix(r, i) - Prefix(r, j);
    } else {
      var i :| 0 <= i <= n + 1 && Prefix(r, i) == peak;
      assert dd' == Prefix(r, i) - Prefix(r, n + 1);
    }
  }

  method Streaks(r: seq<real>) returns (maxLoss: nat, maxWin: nat)
    ensures LongestRun(Negative(r), maxLoss) && LongestRun(Positive(r), maxWin)
  {
    hide TrailingRun, LongestRun;
    maxLoss, maxWin := 0, 0;
    var loss, win := 0, 0;
    NoRuns();
    assert Negative(r[..0]) == [] && Positive(r[..0]) == [];
    for n := 0 to |r|
      invariant TrailingRun(Negative(r[..n]), loss) && LongestRun(Negative(r[..n]), maxLoss)
      invariant TrailingRun(Positive(r[..n]), win) && LongestRun(Positive(r[..n]), maxWin)
    {
      assert Negative(r[..n + 1]) == Negative(r[..n]) + [r[n] < 0.0];
      assert Positive(r[..n + 1]) == Positive(r[..n]) + [r[n] > 0.0];
      RunsExtend(Negative(r[..n]), r[n] < 0.0, loss, maxLoss);
      RunsExtend(Positive(r[..n]), r[n] > 0.0, win, maxWin);
      if r[n] < 0.0 {
        loss := loss + 1;
        maxLoss := if loss > maxLoss then loss else maxLoss;
        win := 0;
      } else if r[n] > 0.0 {
        win := win + 1;
        maxWin := if win > maxWin then win else maxWin;
        loss := 0;
      } else {
        loss, win := 0, 0;
      }
    }
    assert r[..|r|] == r;
  }

  // ---------------------------------------------------------------- outcome statistics

  datatype Kind = Win | Loss | Breakeven
  datatype Trade = Trade(key: string, kind: Kind, pnl: real)

  /** Chronological loss flags of a list that is sorted newest first. */
  function LossFlags(newestFirst: seq<Kind>): (b: seq<bool>)
    ensures |b| == |newestFirst|
    ensures forall i :: 0 <= i < |b| ==> b[i] == newestFirst[|b| - 1 - i].Loss?
  {
    seq(|newestFirst|, i requires 0 <= i < |newestFirst| => newestFirst[|newestFirst| - 1 - i].Loss?)
  }

  datatype Streak = Streak(current: nat, max: nat)

  /** `get_loss_streak` over the fetched list: the first loop runs oldest to newest,
      the second from the newest until the first trade that is not a loss. */
  method GetLossStreak(newestFirst: seq<Kind>) returns (streak: Option<Streak>)
    ensures streak.None? <==> newestFirst == []
    ensures streak.Some? ==>
      && LongestRun(LossFlags(newestFirst), streak.value.max)
      && TrailingRun(LossFlags(newestFirst), streak.value.current)
      && streak.value.current <= streak.value.max
  {
    if newestFirst == [] {
      return None;
    }
    ghost var b := LossFlags(newestFirst);
    var current, longest := 0, 0;
    assert AllTrue([], 0, 0);
    var i := |newestFirst|;
    while i > 0
      invariant 0 <= i <= |newestFirst|
      invariant TrailingRun(b[..|b| - i], current) && LongestRun(b[..|b| - i], longest)
    {
      i := i - 1;
      assert b[..|b| - i] == b[..|b| - i - 1] + [newestFirst[i].Loss?];
      RunsExtend(b[..|b| - i - 1], newestFirst[i].Loss?, current, longest);
      if newestFirst[i].Loss? {
        current := current + 1;
        longest := if current > longest then current else longest;
      } else {
        current := 0;
      }
    }
    assert b[..|b|] == b;
    current := 0;
    while current < |newestFirst| && newestFirst[current].Loss?
      invariant current <= |newestFirst| && AllTrue(b, |b| - current, |b|)
    {
      current := current + 1;
    }
    streak := Some(Streak(current, longest));
  }

  datatype Stats = Stats(count: nat, wins: nat, losses: nat, breakevens: nat, totalPnl: real)

  function Keys(ts: seq<Trade>): (r: seq<string>)
    ensures |r| == |ts| && forall i :: 0 <= i < |ts| ==> r[i] == ts[i].key
  {
    seq(|ts|, i requires 0 <= i < |ts| => ts[i].key)
  }

  function Kinds(ts: seq<Trade>): (r: seq<(string, Kind)>)
    ensures |r| == |ts| && forall i :: 0 <= i < |ts| ==> r[i] == (ts[i].key, ts[i].kind)
  {
    seq(|ts|, i requires 0 <= i < |ts| => (ts[i].key, ts[i].kind))
  }

  function PnlOf(ts: seq<Trade>, key: string): real
    decreases |ts|
  {
    if ts == [] then 0.0 else
    PnlOf(ts[..|ts| - 1], key) + if ts[|ts| - 1].key == key then ts[|ts| - 1].pnl else 0.0
  }

  /** The statistics of one key say how often it occurs, alone and with each kind. */
  ghost predicate StatsOf(ts: seq<Trade>, key: string, s: Stats) {
    && s.count == multiset(Keys(ts))[key]
    && s.wins == multiset(Kinds(ts))[(key, Win)]
    && s.losses == multiset(Kinds(ts))[(key, Loss)]
    && s.breakevens == multiset(Kinds(ts))[(key, Breakeven)]
    && s.wins + s.losses + s.breakevens == s.count
    && s.totalPnl == PnlOf(ts, key)
  }

  const NOTHING := Stats(0, 0, 0, 0, 0.0)

  /** One more trade, as seen by the group of its key. */
  function Counted(s: Stats, t: Trade): Stats {
    Stats(s.count + 1, s.wins + (if t.kind.Win? then 1 else 0), s.losses + (if t.kind.Loss? then 1 else 0),
          s.breakevens + (if t.kind.Breakeven? then 1 else 0), s.totalPnl + t.pnl)
  }

  function Group(stats: map<string, Stats>, t: Trade): map<string, Stats> {
    stats[t.key := Counted(if t.key in stats then stats[t.key] else NOTHING, t)]
  }

  function Groups(ts: seq<Trade>): map<string, Stats>
    decreases |ts|
  {
    if ts == [] then map[] else Group(Groups(ts[..|ts| - 1]), ts[|ts| - 1])
  }

  /** The grouping loop shared by the three aggregations. */
  method Aggregate(ts: seq<Trade>) returns (stats: map<string, Stats>)
    ensures stats == Groups(ts)
  {
    stats := map[];
    for n := 0 to |ts|
      invariant stats == Groups(ts[..n])
    {
      var t := ts[n];
      var s := if t.key in stats then stats[t.key] else NOTHING;
      s := s.(count := s.count + 1, totalPnl := s.totalPnl + t.pnl);
      match t.kind {
        case Win => s := s.(wins := s.wins + 1);
        case Loss => s := s.(losses := s.losses + 1);
        case Breakeven => s := s.(breakevens := s.breakevens + 1);
      }
      assert ts[..n + 1][..n] == ts[..n];
      stats := stats[t.key := s];
    }
    assert ts[..|ts|] == ts;
  }

  lemma {:induction false} AbsentKey(ts: seq<Trade>, key: string)
    requires key !in Keys(ts)
    ensures StatsOf(ts, key, NOTHING)
    decreases |ts|
  {
    assert key !in multiset(Keys(ts));
    forall i, kind: Kind | 0 <= i < |ts| ensures Kinds(ts)[i] != (key, kind) {
      assert Keys(ts)[i] != key;
    }
    forall kind: Kind ensures multiset(Kinds(ts))[(key, kind)] == 0 {
      assert (key, kind) !in Kinds(ts);
    }
    if ts == [] {
    } else {
      var front := ts[..|ts| - 1];
      assert Keys(ts) == Keys(front) + [ts[|ts| - 1].key];
      AbsentKey(front, key);
    }
  }

  lemma StatsStep(ts: seq<Trade>, t: Trade, key: string, s: Stats)
    requires StatsOf(ts, key, s)
    ensures StatsOf(ts + [t], key, if key == t.key then Counted(s, t) else s)
  {
    KindStep(ts, t, key, Win);
    KindStep(ts, t, key, Loss);
    KindStep(ts, t, key, Breakeven);
    assert (ts + [t])[..|ts|] == ts;
  }

  lemma KindStep(ts: seq<Trade>, t: Trade, key: string, kind: Kind)
    ensures multiset(Keys(ts + [t]))[key] == multiset(Keys(ts))[key] + if t.key == key then 1 else 0
    ensures multiset(Kinds(ts + [t]))[(key, kind)] ==
      multiset(Kinds(ts))[(key, kind)] + if t.key == key && t.kind == kind then 1 else 0
  {
    assert Keys(ts + [t]) == Keys(ts) + [t.key];
    assert Kinds(ts + [t]) == Kinds(ts) + [(t.key, t.kind)];
  }

  /** Exactly the keys that occur have a group, and every trade is counted in the
      group of its key and in no other: the groups partition the input. */
  lemma {:induction false} GroupsPartition(ts: seq<Trade>, key: string)
    ensures key in Groups(ts) <==> key in Keys(ts)
    ensures key in Groups(ts) ==> StatsOf(ts, key, Groups(ts)[key])
    decreases |ts|
  {
    if ts == [] {
    } else {
      var front, t := ts[..|ts| - 1], ts[|ts| - 1];
      assert ts == front + [t];
      GroupsPartition(front, key);
      assert Keys(ts) == Keys(front) + [t.key];
      if key !in Groups(front) { AbsentKey(front, key); }
      StatsStep(front, t, key, if key in Groups(front) then Groups(front)[key] else NOTHING);
    }
  }

  /** One more trade changes the group of its key only, and its total by its own result. */
  lemma GroupsStep(ts: seq<Trade>, t: Trade)
    ensures var before, after := Groups(ts), Groups(ts + [t]);
      && after.Keys == before.Keys + {t.key}
      && (forall key | key in before && key != t.key :: after[key] == before[key])
      && after[t.key].count == (if t.key in before then before[t.key].count else 0) + 1
      && after[t.key].totalPnl == (if t.key in before then before[t.key].totalPnl else 0.0) + t.pnl
  {
    assert (ts + [t])[..|ts|] == ts;
  }
}
