// What the declarative outcome implies, and what it does not depend on.
module OutcomeTaggerProofs {
  import opened Common
  import opened OutcomeTagger

  lemma LargestUnique(s: Signal, cs: seq<Candle>, n: nat, adverse: bool, m1: real, m2: real)
    requires n <= |cs| && Largest(s, cs, n, adverse, m1) && Largest(s, cs, n, adverse, m2)
    ensures m1 == m2
  {
    assert m1 <= m2 && m2 <= m1;
  }

  lemma FirstTouchUnique(s: Signal, cs: seq<Candle>, k1: nat, k2: nat)
    requires FirstTouch(s, cs, k1) && FirstTouch(s, cs, k2)
    ensures k1 == k2
  {
    hide Touches;
    assert !(k1 < k2) && !(k2 < k1);
  }

  /** The meaning leaves no choice: two outcomes of one signal are equal. */
  lemma OutcomeUnique(s: Signal, cs: seq<Candle>, o1: Outcome, o2: Outcome)
    requires IsOutcome(s, cs, o1) && IsOutcome(s, cs, o2)
    ensures o1 == o2
  {
    var k: nat :| FirstTouch(s, cs, k) && ExitAt(s, cs, k, o1);
    var k2: nat :| FirstTouch(s, cs, k2) && ExitAt(s, cs, k2, o2);
    FirstTouchUnique(s, cs, k, k2);
    hide FirstTouch, Largest, Touches, StopHit, TargetR;
    LargestUnique(s, cs, Span(cs, k), true, OrZero(o1.mae), OrZero(o2.mae));
    LargestUnique(s, cs, Span(cs, k), false, OrZero(o1.mfe), OrZero(o2.mfe));
  }

  // ------------------------------------------------------------------------ excursions

  ghost predicate SoundLevels(s: Signal) {
    if s.direction.Long? then s.sl < s.entry < s.tp else s.tp < s.entry < s.sl
  }

  lemma Ratio(a: real, b: real, r: real)
    requires r > 0.0
    ensures a <= b <==> a / r <= b / r
    ensures r / r == 1.0
  {
    assert a == (a / r) * r && b == (b / r) * r;
    if a / r <= b / r { assert (a / r) * r <= (b / r) * r; }
    if a / r > b / r { assert (a / r) * r > (b / r) * r; }
  }

  /** With the stop on the losing side and the target on the winning side of the
      entry, excursions reach 1 exactly at the stop and the target multiple exactly
      at the target. */
  lemma Levels(s: Signal, c: Candle)
    requires SoundLevels(s)
    ensures StopHit(s, c) <==> Adverse(s, c) >= 1.0
    ensures TargetHit(s, c) <==> Favourable(s, c) >= TargetR(s)
    ensures TargetR(s) > 0.0
  {
    var r := Risk(s);
    if s.direction.Long? {
      Ratio(r, s.entry - c.low, r);
      Ratio(s.tp - s.entry, c.high - s.entry, r);
      DivisionSign(s.tp - s.entry, r);
    } else {
      Ratio(r, c.high - s.entry, r);
      Ratio(s.entry - s.tp, s.entry - c.low, r);
      DivisionSign(s.entry - s.tp, r);
    }
  }

  /** For such signals: a loss has suffered at least 1R, a win has seen at least its
      own multiple, and an undecided trade has reached neither. */
  lemma VerdictExcursions(s: Signal, cs: seq<Candle>, o: Outcome)
    requires SoundLevels(s) && IsOutcome(s, cs, o)
    ensures o.verdict == Loss ==> o.mae.Some? && o.mae.value >= 1.0 && o.r == Some(-1.0)
    ensures o.verdict == Win ==> o.mfe.Some? && o.r.Some? && o.mfe.value >= o.r.value > 0.0
    ensures o.verdict == Unknown ==> OrZero(o.mae) < 1.0 && OrZero(o.mfe) < TargetR(s)
  {
    var k: nat :| FirstTouch(s, cs, k) && ExitAt(s, cs, k, o);
    if k < |cs| {
      Levels(s, cs[k]);
      assert Excursion(s, cs[k], true) <= OrZero(o.mae) && Excursion(s, cs[k], false) <= OrZero(o.mfe);
    } else {
      UnknownBelow(s, cs, true, OrZero(o.mae));
      UnknownBelow(s, cs, false, OrZero(o.mfe));
    }
  }

  lemma UnknownBelow(s: Signal, cs: seq<Candle>, adverse: bool, m: real)
    requires SoundLevels(s) && FirstTouch(s, cs, |cs|) && Largest(s, cs, |cs|, adverse, m)
    ensures m < if adverse then 1.0 else TargetR(s)
  {
    Levels(s, Candle(0, 0.0, 0.0));
    if m > 0.0 {
      var j :| 0 <= j < |cs| && Later(s, cs[j]) && Excursion(s, cs[j], adverse) == m;
      Levels(s, cs[j]);
      assert !Touches(s, cs[j]);
    }
  }

  // ------------------------------------------------------------- outcomes in raw prices

  /** The whole candle lies strictly between stop and target. */
  ghost predicate Between(s: Signal, c: Candle) {
    if s.direction.Long? then s.sl < c.low && c.high < s.tp else s.tp < c.low && c.high < s.sl
  }

  /** Candle k is the first after the signal that does not. */
  ghost predicate FirstOut(s: Signal, cs: seq<Candle>, k: nat) {
    && k < |cs| && cs[k].timestamp > s.timestamp && !Between(s, cs[k])
    && forall j :: 0 <= j < k && cs[j].timestamp > s.timestamp ==> Between(s, cs[j])
  }

  ghost predicate AtStop(s: Signal, c: Candle) {
    if s.direction.Long? then c.low <= s.sl else c.high >= s.sl
  }

  /** What one R is: the distance to the stop, or 1 where that is not positive. */
  function OneR(s: Signal): real {
    var d := if s.direction.Long? then s.entry - s.sl else s.sl - s.entry;
    if d > 0.0 then d else 1.0
  }

  lemma TouchInPrices(s: Signal, c: Candle)
    ensures Touches(s, c) <==> c.timestamp > s.timestamp && !Between(s, c)
    ensures StopHit(s, c) <==> AtStop(s, c)
  {
  }

  lemma FirstTouchInPrices(s: Signal, cs: seq<Candle>, k: nat)
    requires FirstTouch(s, cs, k)
    ensures k < |cs| ==> FirstOut(s, cs, k)
    ensures k == |cs| <==> forall j :: 0 <= j < |cs| && cs[j].timestamp > s.timestamp ==> Between(s, cs[j])
  {
    forall j | 0 <= j < |cs| ensures Touches(s, cs[j]) <==> cs[j].timestamp > s.timestamp && !Between(s, cs[j]) {
      TouchInPrices(s, cs[j]);
    }
    hide Touches, Between;
  }

  /** The verdict is decided by the first later candle that leaves the space between
      stop and target: a loss of 1R at the stop if it is touched, otherwise a win of the
      target's multiple at the target; none such, no verdict. */
  lemma VerdictInPrices(s: Signal, cs: seq<Candle>, o: Outcome)
    requires IsOutcome(s, cs, o)
    ensures o.verdict == Unknown <==> forall j :: 0 <= j < |cs| && cs[j].timestamp > s.timestamp ==> Between(s, cs[j])
    ensures o.verdict != Unknown ==> exists k: nat :: DecidedAt(s, cs, k, o)
    ensures o.verdict == Unknown ==> o.r == None && o.exitPrice == None && o.exitTime == None
    ensures o.verdict == Loss ==> o.r == Some(-1.0) && o.exitPrice == Some(s.sl)
    ensures o.verdict == Win ==> o.exitPrice == Some(s.tp) && o.r.Some?
    ensures o.verdict == Win ==> o.r.value * OneR(s) == if s.direction.Long? then s.tp - s.entry else s.entry - s.tp
  {
    var k: nat :| FirstTouch(s, cs, k) && ExitAt(s, cs, k, o);
    FirstTouchInPrices(s, cs, k);
    RecordInPrices(s, if k < |cs| then Some(cs[k]) else None, o);
    hide FirstTouch, FirstOut, Between, AtStop, Largest, ExitRecord, OneR;
    if k < |cs| {
      assert DecidedAt(s, cs, k, o);
    }
  }

  lemma RecordInPrices(s: Signal, exit: Option<Candle>, o: Outcome)
    requires ExitRecord(s, exit, o)
    ensures o.verdict == Unknown <==> exit == None
    ensures exit.Some? ==> o.exitTime == Some(exit.value.timestamp) && (o.verdict == Loss <==> AtStop(s, exit.value))
    ensures o.verdict == Unknown ==> o.r == None && o.exitPrice == None && o.exitTime == None
    ensures o.verdict == Loss ==> o.r == Some(-1.0) && o.exitPrice == Some(s.sl)
    ensures o.verdict == Win ==> o.exitPrice == Some(s.tp) && o.r.Some?
    ensures o.verdict == Win ==> o.r.value * OneR(s) == if s.direction.Long? then s.tp - s.entry else s.entry - s.tp
  {
    WinMultiple(s);
    if exit.Some? { TouchInPrices(s, exit.value); }
    hide TargetR, OneR, StopHit, AtStop;
  }

  ghost predicate DecidedAt(s: Signal, cs: seq<Candle>, k: nat, o: Outcome) {
    FirstOut(s, cs, k) && o.exitTime == Some(cs[k].timestamp) && (o.verdict == Loss <==> AtStop(s, cs[k]))
  }

  lemma WinMultiple(s: Signal)
    ensures TargetR(s) * OneR(s) == if s.direction.Long? then s.tp - s.entry else s.entry - s.tp
  {
  }

  /** The excursions give back the worst and the best price that the later candles up to
      the exit reached, as far as they lie beyond the entry. */
  lemma ExcursionsInPrices(s: Signal, cs: seq<Candle>, k: nat, o: Outcome, j: nat)
    requires k <= |cs| && ExitAt(s, cs, k, o) && j < |cs| && j <= k && cs[j].timestamp > s.timestamp
    ensures var bad, good := OrZero(o.mae) * OneR(s), OrZero(o.mfe) * OneR(s);
      if s.direction.Long? then s.entry - bad <= cs[j].low && cs[j].high <= s.entry + good
      else s.entry - good <= cs[j].low && cs[j].high <= s.entry + bad
  {
    ExcursionBounded(s, cs, k, o, j, true);
    ExcursionBounded(s, cs, k, o, j, false);
    hide ExitAt, OneR, OrZero;
  }

  lemma ExcursionBounded(s: Signal, cs: seq<Candle>, k: nat, o: Outcome, j: nat, adverse: bool)
    requires k <= |cs| && ExitAt(s, cs, k, o) && j < |cs| && j <= k && cs[j].timestamp > s.timestamp
    ensures (if s.direction.Long? == adverse then s.entry - cs[j].low else cs[j].high - s.entry)
         <= OrZero(if adverse then o.mae else o.mfe) * OneR(s)
  {
    hide ExitRecord, OneR, Excursion, OrZero;
    var x, m := Excursion(s, cs[j], adverse), OrZero(if adverse then o.mae else o.mfe);
    assert x <= m;
    hide Largest, ExitAt;
    ExcursionScaled(s, cs[j], adverse);
    Scale(x, m, OneR(s));
  }

  lemma ExcursionReached(s: Signal, cs: seq<Candle>, k: nat, o: Outcome, adverse: bool) returns (j: nat)
    requires k <= |cs| && ExitAt(s, cs, k, o) && (if adverse then o.mae else o.mfe).Some?
    ensures j < |cs| && j <= k && cs[j].timestamp > s.timestamp
    ensures var move := (if adverse then o.mae else o.mfe).value * OneR(s);
      if s.direction.Long? == adverse then cs[j].low == s.entry - move else cs[j].high == s.entry + move
  {
    hide OneR, Excursion;
    var m := (if adverse then o.mae else o.mfe).value;
    j :| 0 <= j < Span(cs, k) && Later(s, cs[j]) && Excursion(s, cs[j], adverse) == m;
    hide Largest, ExitAt, ExitRecord;
    ExcursionScaled(s, cs[j], adverse);
  }

  lemma ExcursionScaled(s: Signal, c: Candle, adverse: bool)
    ensures Excursion(s, c, adverse) * OneR(s)
         == if s.direction.Long? == adverse then s.entry - c.low else c.high - s.entry
    ensures OneR(s) > 0.0
  {
  }

  lemma Scale(a: real, b: real, r: real)
    requires a <= b && r > 0.0
    ensures a * r <= b * r
  {
  }

  // -------------------------------------------------------------- order does not matter

  ghost predicate DistinctTimes(cs: seq<Candle>) {
    forall i, j :: 0 <= i < j < |cs| ==> cs[i].timestamp != cs[j].timestamp
  }

  lemma SortedDistinct(a: seq<Candle>, cs: seq<Candle>)
    requires multiset(a) == multiset(cs) && DistinctTimes(cs) && Sorted(a)
    ensures Increasing(a)
  {
    forall i, j | 0 <= i < j < |a| ensures a[i].timestamp < a[j].timestamp {
      assert a == a[..j] + a[j..];
      assert a[i] in multiset(a[..j]) by { assert a[..j][i] == a[i]; }
      assert a[j] in multiset(a[j..]) by { assert a[j..][0] == a[j]; }
      MultisetDistinct(cs, a[i]);
      assert a[i] in cs && a[j] in cs by { assert a[i] in multiset(a) && a[j] in multiset(a); }
      assert a[i] != a[j];
    }
  }

  lemma {:induction false} MultisetDistinct(cs: seq<Candle>, c: Candle)
    requires DistinctTimes(cs)
    ensures multiset(cs)[c] <= 1
    decreases |cs|
  {
    if cs == [] {
    } else {
      var front, last := cs[..|cs| - 1], cs[|cs| - 1];
      assert cs == front + [last];
      MultisetDistinct(front, c);
      if c == last { assert c !in front; }
    }
  }

  ghost predicate Increasing(a: seq<Candle>) {
    forall i, j :: 0 <= i < j < |a| ==> a[i].timestamp < a[j].timestamp
  }

  lemma SameLast(a: seq<Candle>, b: seq<Candle>)
    requires multiset(a) == multiset(b) && Increasing(a) && Increasing(b) && a != [] && b != []
    ensures a[|a| - 1] == b[|b| - 1]
  {
    var x, y := a[|a| - 1], b[|b| - 1];
    assert x in multiset(b) && y in multiset(a);
    var i :| 0 <= i < |b| && b[i] == x;
    var j :| 0 <= j < |a| && a[j] == y;
  }

  lemma SameFronts(f: seq<Candle>, g: seq<Candle>, x: Candle)
    requires multiset(f + [x]) == multiset(g + [x])
    ensures multiset(f) == multiset(g)
  {
    assert multiset(f) == multiset(f + [x]) - multiset{x};
    assert multiset(g) == multiset(g + [x]) - multiset{x};
  }

  lemma FrontIncreasing(a: seq<Candle>)
    requires a != [] && Increasing(a)
    ensures Increasing(a[..|a| - 1])
  {
  }

  lemma {:induction false} SortedUnique(a: seq<Candle>, b: seq<Candle>)
    requires multiset(a) == multiset(b) && Increasing(a) && Increasing(b)
    ensures a == b
    decreases |a|
  {
    hide Increasing;
    assert |a| == |multiset(a)| && |b| == |multiset(b)|;
    if a == [] {
    } else {
      SameLast(a, b);
      var f, g, x := a[..|a| - 1], b[..|b| - 1], a[|a| - 1];
      assert a == f + [x] && b == g + [x];
      SameFronts(f, g, x);
      FrontIncreasing(a);
      FrontIncreasing(b);
      SortedUnique(f, g);
    }
  }

  /** Candles with distinct timestamps may come in any order. */
  lemma OrderIrrelevant(s: Signal, cs: seq<Candle>, ds: seq<Candle>, o1: Outcome, o2: Outcome)
    requires multiset(cs) == multiset(ds) && DistinctTimes(cs)
    requires IsOutcome(s, Sort(cs), o1) && IsOutcome(s, Sort(ds), o2)
    ensures o1 == o2
  {
    SortFacts(cs);
    SortFacts(ds);
    SortedDistinct(Sort(cs), cs);
    SortedDistinct(Sort(ds), cs);
    SortedUnique(Sort(cs), Sort(ds));
    OutcomeUnique(s, Sort(cs), o1, o2);
  }

  // ------------------------------------------------------- later candles do not matter

  /** How many candles of a time-ordered list are not later than T. */
  function UpTo(s: seq<Candle>, T: int): (n: nat)
    ensures n <= |s|
    decreases |s|
  {
    if s == [] then 0
    else if s[|s| - 1].timestamp <= T then |s|
    else UpTo(s[..|s| - 1], T)
  }

  lemma {:induction false} UpToCovers(s: seq<Candle>, T: int, i: nat)
    requires Sorted(s) && i < |s| && s[i].timestamp <= T
    ensures i < UpTo(s, T)
    decreases |s|
  {
    if s[|s| - 1].timestamp <= T {
    } else {
      UpToCovers(s[..|s| - 1], T, i);
    }
  }

  lemma {:induction false} InsertLater(s: seq<Candle>, x: Candle, T: int)
    requires x.timestamp > T
    ensures |Insert(s, x)| == |s| + 1 && UpTo(Insert(s, x), T) == UpTo(s, T)
    ensures Insert(s, x)[..UpTo(s, T)] == s[..UpTo(s, T)]
    decreases |s|
  {
    var t := Insert(s, x);
    if s == [] || s[|s| - 1].timestamp <= x.timestamp {
      assert t[..|s|] == s;
    } else {
      var front := s[..|s| - 1];
      InsertLater(front, x, T);
      assert t[..|t| - 1] == Insert(front, x);
      assert t[..UpTo(front, T)] == front[..UpTo(front, T)] == s[..UpTo(front, T)];
    }
  }

  lemma {:induction false} SortLater(cs: seq<Candle>, extra: seq<Candle>, T: int)
    requires forall i :: 0 <= i < |extra| ==> extra[i].timestamp > T
    ensures var n := UpTo(Sort(cs), T);
      UpTo(Sort(cs + extra), T) == n && n <= |Sort(cs + extra)| && Sort(cs + extra)[..n] == Sort(cs)[..n]
    decreases |extra|
  {
    if extra == [] {
      assert cs + extra == cs;
    } else {
      var front, last := extra[..|extra| - 1], extra[|extra| - 1];
      assert (cs + extra)[..|cs + extra| - 1] == cs + front;
      SortLater(cs, front, T);
      InsertLater(Sort(cs + front), last, T);
    }
  }

  lemma PrefixOutcome(s: Signal, a: seq<Candle>, b: seq<Candle>, k: nat, n: nat, o: Outcome)
    requires k < n <= |a| && n <= |b| && a[..n] == b[..n]
    requires FirstTouch(s, a, k) && ExitAt(s, a, k, o)
    ensures IsOutcome(s, b, o)
  {
    assert forall j :: 0 <= j < n ==> a[j] == a[..n][j] && b[j] == b[..n][j];
    LargestPrefix(s, a, b, k + 1, true, OrZero(o.mae));
    LargestPrefix(s, a, b, k + 1, false, OrZero(o.mfe));
    assert FirstTouch(s, b, k) && ExitAt(s, b, k, o);
  }

  lemma LargestPrefix(s: Signal, a: seq<Candle>, b: seq<Candle>, n: nat, adverse: bool, m: real)
    requires n <= |a| && n <= |b| && Largest(s, a, n, adverse, m)
    requires forall j :: 0 <= j < n ==> a[j] == b[j]
    ensures Largest(s, b, n, adverse, m)
  {
    if m > 0.0 {
      var j :| 0 <= j < n && Later(s, a[j]) && Excursion(s, a[j], adverse) == m;
      assert Excursion(s, b[j], adverse) == m;
    }
  }

  /** Once a trade has exited, candles after its exit time change nothing. */
  lemma LaterCandlesIrrelevant(s: Signal, cs: seq<Candle>, extra: seq<Candle>, o: Outcome)
    requires IsOutcome(s, Sort(cs), o) && o.exitTime.Some?
    requires forall i :: 0 <= i < |extra| ==> extra[i].timestamp > o.exitTime.value
    ensures IsOutcome(s, Sort(cs + extra), o)
  {
    var a := Sort(cs);
    var k: nat :| FirstTouch(s, a, k) && ExitAt(s, a, k, o);
    SortFacts(cs);
    SortLater(cs, extra, o.exitTime.value);
    UpToCovers(a, o.exitTime.value, k);
    PrefixOutcome(s, a, Sort(cs + extra), k, UpTo(a, o.exitTime.value), o);
  }

  // ------------------------------------------------------------------- mirror symmetry

  function MirrorSignal(s: Signal): Signal {
    Signal(s.id, s.timestamp, if s.direction.Long? then Short else Long, -s.entry, -s.sl, -s.tp)
  }

  function MirrorCandle(c: Candle): Candle {
    Candle(c.timestamp, -c.low, -c.high)
  }

  function MirrorAll(cs: seq<Candle>): (r: seq<Candle>)
    ensures |r| == |cs| && forall i :: 0 <= i < |cs| ==> r[i] == MirrorCandle(cs[i])
  {
    seq(|cs|, i requires 0 <= i < |cs| => MirrorCandle(cs[i]))
  }

  function MirrorOutcome(o: Outcome): Outcome {
    o.(exitPrice := if o.exitPrice.Some? then Some(-o.exitPrice.value) else None)
  }

  lemma MirrorLook(s: Signal, c: Candle, adverse: bool)
    ensures var t, d := MirrorSignal(s), MirrorCandle(c);
      && Risk(t) == Risk(s) && TargetR(t) == TargetR(s)
      && (Later(t, d) <==> Later(s, c))
      && (StopHit(t, d) <==> StopHit(s, c)) && (Touches(t, d) <==> Touches(s, c))
      && Excursion(t, d, adverse) == Excursion(s, c, adverse)
  {
    assert -s.entry - -s.sl == s.sl - s.entry && -s.sl - -s.entry == s.entry - s.sl;
    assert -s.entry - -c.high == c.high - s.entry && -c.low - -s.entry == s.entry - c.low;
    assert -s.tp - -s.entry == s.entry - s.tp && -s.entry - -s.tp == s.tp - s.entry;
  }

  lemma {:induction false} MirrorInsert(s: seq<Candle>, x: Candle)
    ensures MirrorAll(Insert(s, x)) == Insert(MirrorAll(s), MirrorCandle(x))
    decreases |s|
  {
    if s == [] || s[|s| - 1].timestamp <= x.timestamp {
    } else {
      MirrorInsert(s[..|s| - 1], x);
      assert MirrorAll(s)[..|s| - 1] == MirrorAll(s[..|s| - 1]);
    }
  }

  lemma {:induction false} MirrorSort(cs: seq<Candle>)
    ensures MirrorAll(Sort(cs)) == Sort(MirrorAll(cs))
    decreases |cs|
  {
    if cs == [] {
    } else {
      MirrorSort(cs[..|cs| - 1]);
      MirrorInsert(Sort(cs[..|cs| - 1]), cs[|cs| - 1]);
      assert MirrorAll(cs)[..|cs| - 1] == MirrorAll(cs[..|cs| - 1]);
    }
  }

  lemma MirrorLargest(s: Signal, cs: seq<Candle>, n: nat, adverse: bool, m: real)
    requires n <= |cs| && Largest(s, cs, n, adverse, m)
    ensures Largest(MirrorSignal(s), MirrorAll(cs), n, adverse, m)
  {
    forall j | 0 <= j < n
      ensures Later(MirrorSignal(s), MirrorAll(cs)[j]) <==> Later(s, cs[j])
      ensures Excursion(MirrorSignal(s), MirrorAll(cs)[j], adverse) == Excursion(s, cs[j], adverse)
    {
      MirrorLook(s, cs[j], adverse);
    }
  }

  lemma MirrorTouch(s: Signal, cs: seq<Candle>, k: nat)
    requires FirstTouch(s, cs, k)
    ensures FirstTouch(MirrorSignal(s), MirrorAll(cs), k)
  {
    forall j | 0 <= j < |cs| ensures Touches(MirrorSignal(s), MirrorAll(cs)[j]) <==> Touches(s, cs[j]) {
      MirrorLook(s, cs[j], true);
    }
  }

  /** Turning prices upside down and longs into shorts changes nothing but the sign
      of the exit price. */
  lemma MirrorSymmetric(s: Signal, cs: seq<Candle>, o: Outcome)
    requires IsOutcome(s, Sort(cs), o)
    ensures IsOutcome(MirrorSignal(s), Sort(MirrorAll(cs)), MirrorOutcome(o))
  {
    MirrorSort(cs);
    var a := Sort(cs);
    var k: nat :| FirstTouch(s, a, k) && ExitAt(s, a, k, o);
    MirrorExit(s, a, k, o);
  }

  lemma MirrorExit(s: Signal, a: seq<Candle>, k: nat, o: Outcome)
    requires FirstTouch(s, a, k) && ExitAt(s, a, k, o)
    ensures IsOutcome(MirrorSignal(s), MirrorAll(a), MirrorOutcome(o))
  {
    MirrorTouch(s, a, k);
    MirrorLargest(s, a, Span(a, k), true, OrZero(o.mae));
    MirrorLargest(s, a, Span(a, k), false, OrZero(o.mfe));
    MirrorRecord(s, if k < |a| then Some(a[k]) else None, o);
    assert ExitAt(MirrorSignal(s), MirrorAll(a), k, MirrorOutcome(o));
  }

  lemma MirrorRecord(s: Signal, exit: Option<Candle>, o: Outcome)
    requires ExitRecord(s, exit, o)
    ensures ExitRecord(MirrorSignal(s), if exit.Some? then Some(MirrorCandle(exit.value)) else None, MirrorOutcome(o))
  {
    MirrorLook(s, if exit.Some? then exit.value else Candle(0, 0.0, 0.0), true);
  }

  // ------------------------------------------------------------------------------- ties

  /** The documented verdict, with k the first candle that touches a level: if it holds
      both levels, the tie-break decides. */
  predicate DocumentedAt(s: Signal, cs: seq<Candle>, k: nat, tieBreak: string, v: Verdict)
    requires k <= |cs|
  {
    if k == |cs| then v == Unknown
    else if StopHit(s, cs[k]) && TargetHit(s, cs[k]) then v == if tieBreak == "WIN" then Win else Loss
    else v == if StopHit(s, cs[k]) then Loss else Win
  }

  ghost predicate Documented(s: Signal, cs: seq<Candle>, tieBreak: string, v: Verdict) {
    exists k: nat :: FirstTouch(s, cs, k) && DocumentedAt(s, cs, k, tieBreak, v)
  }

  /** The first candle that touches a level holds both. */
  ghost predicate Tie(s: Signal, cs: seq<Candle>) {
    exists k: nat :: FirstTouch(s, cs, k) && k < |cs| && StopHit(s, cs[k]) && TargetHit(s, cs[k])
  }

  /** The verdict is the documented one if and only if ties are to be losses anyway or
      there is no tie. */
  lemma TieBreakIff(s: Signal, cs: seq<Candle>, tieBreak: string, o: Outcome)
    requires IsOutcome(s, cs, o) && (tieBreak == "LOSS" || tieBreak == "WIN")
    ensures Documented(s, cs, tieBreak, o.verdict) <==> tieBreak == "LOSS" || !Tie(s, cs)
  {
  }

  const BOTH := Signal("a", 0, Long, 10.0, 9.0, 11.0)
  const WIDE := Candle(1, 12.0, 8.0)

  /** A candle that holds both levels is a loss, although ties were to be wins. */
  lemma TieExample(o: Outcome)
    requires IsOutcome(BOTH, [WIDE], o)
    ensures o.verdict == Loss && Documented(BOTH, [WIDE], "WIN", Win) && !Documented(BOTH, [WIDE], "WIN", Loss)
  {
    assert FirstTouch(BOTH, [WIDE], 0);
    forall k: nat | FirstTouch(BOTH, [WIDE], k) ensures k == 0 {
      FirstTouchUnique(BOTH, [WIDE], k, 0);
    }
    assert DocumentedAt(BOTH, [WIDE], 0, "WIN", Win);
  }
}
