// Drawdown and streaks of a list of outcomes in which some are undecided: the scans
// run over the decided values, and what they find is stated over the list itself.
module ReplayOutcomes {
  import opened Common
  import opened ReplayScans

  /** The values of the outcomes that have one. */
  function Completed(outcomes: seq<Option<real>>): seq<real>
    decreases |outcomes|
  {
    if outcomes == [] then [] else
    Completed(outcomes[..|outcomes| - 1])
    + match outcomes[|outcomes| - 1] case Some(r) => [r] case None => []
  }

  // -------------------------------------------------------------- over the list itself

  /** How many of the outcomes from i up to j are decided. */
  function Decided(outcomes: seq<Option<real>>, i: nat, j: nat): nat
    requires j <= |outcomes|
  {
    if j <= i then 0 else Decided(outcomes, i, j - 1) + if outcomes[j - 1].Some? then 1 else 0
  }

  /** The sum of the decided ones. */
  function Sum(outcomes: seq<Option<real>>, i: nat, j: nat): real
    requires j <= |outcomes|
  {
    if j <= i then 0.0 else Sum(outcomes, i, j - 1) + if outcomes[j - 1].Some? then outcomes[j - 1].value else 0.0
  }

  /** Every decided outcome from i up to j is a loss, or every one is a win. */
  ghost predicate Unbroken(outcomes: seq<Option<real>>, i: nat, j: nat, loss: bool)
    requires j <= |outcomes|
  {
    forall k :: i <= k < j && outcomes[k].Some? ==> if loss then outcomes[k].value < 0.0 else outcomes[k].value > 0.0
  }

  /** m is the length of a longest streak, undecided outcomes skipped. */
  ghost predicate LongestStreak(outcomes: seq<Option<real>>, loss: bool, m: nat) {
    && (forall i: nat, j: nat :: i <= j <= |outcomes| && Unbroken(outcomes, i, j, loss) ==>
          Decided(outcomes, i, j) <= m)
    && (exists i: nat, j: nat :: i <= j <= |outcomes| && Unbroken(outcomes, i, j, loss) && Decided(outcomes, i, j) == m)
  }

  /** dd is the largest amount lost over any stretch of outcomes. */
  ghost predicate LargestFall(outcomes: seq<Option<real>>, dd: real) {
    && (forall i: nat, j: nat :: i <= j <= |outcomes| ==> -Sum(outcomes, i, j) <= dd)
    && (exists i: nat, j: nat :: i <= j <= |outcomes| && dd == -Sum(outcomes, i, j))
  }

  // ------------------------------------------------------------- positions and values

  /** Where the decided values of the first j outcomes end in the completed list. */
  function Rank(outcomes: seq<Option<real>>, j: nat): nat
    requires j <= |outcomes|
  {
    |Completed(outcomes[..j])|
  }

  lemma RankStep(outcomes: seq<Option<real>>, j: nat)
    requires j < |outcomes|
    ensures Completed(outcomes[..j + 1])
         == Completed(outcomes[..j]) + if outcomes[j].Some? then [outcomes[j].value] else []
    ensures Rank(outcomes, 0) == 0
  {
    assert outcomes[..j + 1][..j] == outcomes[..j];
  }

  /** The completed list of a prefix is a prefix of the completed list. */
  lemma {:induction false} CompletedPrefix(outcomes: seq<Option<real>>, i: nat, j: nat)
    requires i <= j <= |outcomes|
    ensures Rank(outcomes, i) <= Rank(outcomes, j)
    ensures Completed(outcomes[..i]) == Completed(outcomes[..j])[..Rank(outcomes, i)]
    decreases j
  {
    if i == j {
    } else {
      CompletedPrefix(outcomes, i, j - 1);
      RankStep(outcomes, j - 1);
      hide Completed;
    }
  }

  /** A decided outcome has its value at its rank. */
  lemma ValueAt(outcomes: seq<Option<real>>, k: nat)
    requires k < |outcomes| && outcomes[k].Some?
    ensures Rank(outcomes, k + 1) == Rank(outcomes, k) + 1 <= |Completed(outcomes)|
    ensures Completed(outcomes)[Rank(outcomes, k)] == outcomes[k].value
  {
    RankStep(outcomes, k);
    CompletedPrefix(outcomes, k + 1, |outcomes|);
    assert outcomes[..|outcomes|] == outcomes;
    assert Completed(outcomes)[..Rank(outcomes, k + 1)][Rank(outcomes, k)] == outcomes[k].value;
  }

  lemma {:induction false} RankCounts(outcomes: seq<Option<real>>, i: nat, j: nat)
    requires i <= j <= |outcomes|
    ensures Rank(outcomes, i) + Decided(outcomes, i, j) == Rank(outcomes, j)
    decreases j
  {
    if i == j {
    } else {
      RankCounts(outcomes, i, j - 1);
      RankStep(outcomes, j - 1);
    }
  }

  /** Every place in the completed list is the rank of some position from lo on. */
  lemma {:induction false} RankHits(outcomes: seq<Option<real>>, lo: nat, n: nat) returns (i: nat)
    requires lo <= |outcomes| && Rank(outcomes, lo) <= n <= |Completed(outcomes)|
    ensures lo <= i <= |outcomes| && Rank(outcomes, i) == n
    decreases |outcomes| - lo
  {
    assert outcomes[..|outcomes|] == outcomes;
    if Rank(outcomes, lo) == n {
      i := lo;
    } else {
      RankStep(outcomes, lo);
      i := RankHits(outcomes, lo + 1, n);
    }
  }

  lemma {:induction false} HitBetween(outcomes: seq<Option<real>>, i: nat, j: nat, q: nat) returns (k: nat)
    requires i <= j <= |outcomes| && Rank(outcomes, i) <= q < Rank(outcomes, j)
    ensures i <= k < j && outcomes[k].Some? && Rank(outcomes, k) == q
    decreases j
  {
    RankStep(outcomes, j - 1);
    if q < Rank(outcomes, j - 1) {
      k := HitBetween(outcomes, i, j - 1, q);
    } else {
      k := j - 1;
    }
  }

  // -------------------------------------------------------------------------- streaks

  function Flags(r: seq<real>, loss: bool): seq<bool> {
    if loss then Negative(r) else ReplayScans.Positive(r)
  }

  lemma RankOrder(outcomes: seq<Option<real>>, i: nat, j: nat)
    requires i <= j <= |outcomes|
    ensures Rank(outcomes, i) <= Rank(outcomes, j) <= |Completed(outcomes)|
  {
    CompletedPrefix(outcomes, i, j);
    CompletedPrefix(outcomes, j, |outcomes|);
    assert outcomes[..|outcomes|] == outcomes;
  }

  /** The flag of a decided outcome says whether it is a loss, or a win. */
  lemma FlagAt(outcomes: seq<Option<real>>, k: nat, loss: bool)
    requires k < |outcomes| && outcomes[k].Some?
    ensures Rank(outcomes, k + 1) == Rank(outcomes, k) + 1 <= |Flags(Completed(outcomes), loss)|
    ensures Flags(Completed(outcomes), loss)[Rank(outcomes, k)]
       <==> if loss then outcomes[k].value < 0.0 else outcomes[k].value > 0.0
  {
    ValueAt(outcomes, k);
    hide Completed;
  }

  lemma UnbrokenFlags(outcomes: seq<Option<real>>, i: nat, j: nat, loss: bool)
    requires i <= j <= |outcomes|
    ensures Rank(outcomes, i) <= Rank(outcomes, j) <= |Flags(Completed(outcomes), loss)|
    ensures Unbroken(outcomes, i, j, loss)
       <==> AllTrue(Flags(Completed(outcomes), loss), Rank(outcomes, i), Rank(outcomes, j))
  {
    RankOrder(outcomes, i, j);
    var b := Flags(Completed(outcomes), loss);
    assert |b| == |Completed(outcomes)|;
    hide Completed, Flags, Rank;
    if Unbroken(outcomes, i, j, loss) {
      forall q | Rank(outcomes, i) <= q < Rank(outcomes, j) ensures b[q] {
        var k := HitBetween(outcomes, i, j, q);
        FlagAt(outcomes, k, loss);
      }
    }
    if AllTrue(b, Rank(outcomes, i), Rank(outcomes, j)) {
      forall k | i <= k < j && outcomes[k].Some?
        ensures if loss then outcomes[k].value < 0.0 else outcomes[k].value > 0.0
      {
        FlagAt(outcomes, k, loss);
        RankOrder(outcomes, i, k);
        RankOrder(outcomes, k + 1, j);
        assert b[Rank(outcomes, k)];
      }
    }
  }

  lemma StreakOver(outcomes: seq<Option<real>>, loss: bool, m: nat)
    requires LongestRun(Flags(Completed(outcomes), loss), m)
    ensures LongestStreak(outcomes, loss, m)
  {
    var b := Flags(Completed(outcomes), loss);
    forall i: nat, j: nat | i <= j <= |outcomes| && Unbroken(outcomes, i, j, loss)
      ensures Decided(outcomes, i, j) <= m
    {
      UnbrokenFlags(outcomes, i, j, loss);
      RankCounts(outcomes, i, j);
    }
    var p, q :| 0 <= p <= q <= |b| && AllTrue(b, p, q) && q - p == m;
    var i := RankHits(outcomes, 0, p);
    var j := RankHits(outcomes, i, q);
    UnbrokenFlags(outcomes, i, j, loss);
    RankCounts(outcomes, i, j);
    assert Unbroken(outcomes, i, j, loss) && Decided(outcomes, i, j) == m;
  }

  // ------------------------------------------------------------------------- drawdown

  lemma {:induction false} SumIsFall(outcomes: seq<Option<real>>, i: nat, j: nat)
    requires i <= j <= |outcomes|
    ensures Rank(outcomes, i) <= Rank(outcomes, j) <= |Completed(outcomes)|
    ensures Prefix(Completed(outcomes), Rank(outcomes, j)) - Prefix(Completed(outcomes), Rank(outcomes, i))
         == Sum(outcomes, i, j)
    decreases j
  {
    CompletedPrefix(outcomes, i, j);
    CompletedPrefix(outcomes, j, |outcomes|);
    assert outcomes[..|outcomes|] == outcomes;
    if i == j {
    } else {
      SumIsFall(outcomes, i, j - 1);
      RankStep(outcomes, j - 1);
      if outcomes[j - 1].Some? { ValueAt(outcomes, j - 1); }
    }
  }

  lemma FallOver(outcomes: seq<Option<real>>, dd: real)
    requires MaxDrawdown(Completed(outcomes), dd)
    ensures LargestFall(outcomes, dd)
  {
    var r := Completed(outcomes);
    forall i: nat, j: nat | i <= j <= |outcomes| ensures -Sum(outcomes, i, j) <= dd {
      SumIsFall(outcomes, i, j);
    }
    var p, q :| 0 <= p <= q <= |r| && dd == Prefix(r, p) - Prefix(r, q);
    var i := RankHits(outcomes, 0, p);
    var j := RankHits(outcomes, i, q);
    SumIsFall(outcomes, i, j);
    assert dd == -Sum(outcomes, i, j);
  }

  method ComputeDrawdownStreaks(outcomes: seq<Option<real>>) returns (maxDd: real, maxLoss: nat, maxWin: nat)
    ensures LargestFall(outcomes, maxDd)
    ensures LongestStreak(outcomes, true, maxLoss) && LongestStreak(outcomes, false, maxWin)
  {
    var r := Completed(outcomes);
    maxDd := Drawdown(r);
    maxLoss, maxWin := Streaks(r);
    FallOver(outcomes, maxDd);
    StreakOver(outcomes, true, maxLoss);
    StreakOver(outcomes, false, maxWin);
  }
}
