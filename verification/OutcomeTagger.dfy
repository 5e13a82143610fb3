// The candle tagger: which of stop and target a trade reaches first, and its
// largest adverse and favourable excursions up to then.
module OutcomeTagger {
  import opened Common

  datatype Direction = Long | Short
  datatype Signal = Signal(id: string, timestamp: int, direction: Direction, entry: real, sl: real, tp: real)
  datatype Candle = Candle(timestamp: int, high: real, low: real)

  datatype Verdict = Win | Loss | Unknown
  datatype Outcome = Outcome(
    id: string, verdict: Verdict, r: Option<real>, mae: Option<real>, mfe: Option<real>,
    exitPrice: Option<real>, exitTime: Option<int>)

  // -------------------------------------------------------------------- stable sorting

  ghost predicate Sorted(s: seq<Candle>) {
    forall i, j :: 0 <= i < j < |s| ==> s[i].timestamp <= s[j].timestamp
  }

  /** Behind everything that is not later than x. */
  function Insert(s: seq<Candle>, x: Candle): seq<Candle>
    decreases |s|
  {
    if s == [] || s[|s| - 1].timestamp <= x.timestamp then s + [x]
    else Insert(s[..|s| - 1], x) + [s[|s| - 1]]
  }

  /** `sorted` by timestamp, which keeps the order of equal timestamps. */
  function Sort(s: seq<Candle>): seq<Candle>
    decreases |s|
  {
    if s == [] then [] else Insert(Sort(s[..|s| - 1]), s[|s| - 1])
  }

  lemma {:induction false} InsertFacts(s: seq<Candle>, x: Candle)
    requires Sorted(s)
    ensures multiset(Insert(s, x)) == multiset(s) + multiset{x}
    ensures Sorted(Insert(s, x)) && |Insert(s, x)| == |s| + 1
    ensures forall i :: 0 <= i < |Insert(s, x)| ==> Insert(s, x)[i] == x || Insert(s, x)[i] in s
    decreases |s|
  {
    if s == [] || s[|s| - 1].timestamp <= x.timestamp {
      assert Insert(s, x) == s + [x];
    } else {
      var front, last := s[..|s| - 1], s[|s| - 1];
      assert s == front + [last];
      InsertFacts(front, x);
      var t := Insert(front, x);
      assert Sorted(t + [last]) by {
        forall i | 0 <= i < |t| ensures t[i].timestamp <= last.timestamp { assert t[i] == x || t[i] in front; }
      }
    }
  }

  lemma {:induction false} SortFacts(s: seq<Candle>)
    ensures Sorted(Sort(s)) && multiset(Sort(s)) == multiset(s) && |Sort(s)| == |s|
    decreases |s|
  {
    if s == [] {
    } else {
      var front, last := s[..|s| - 1], s[|s| - 1];
      assert s == front + [last];
      SortFacts(front);
      InsertFacts(Sort(front), last);
    }
  }

  /** The candles of one time, in order. */
  function AtTime(s: seq<Candle>, t: int): seq<Candle>
    decreases |s|
  {
    if s == [] then [] else
    AtTime(s[..|s| - 1], t) + if s[|s| - 1].timestamp == t then [s[|s| - 1]] else []
  }

  lemma {:induction false} InsertStable(s: seq<Candle>, x: Candle, t: int)
    ensures AtTime(Insert(s, x), t) == AtTime(s, t) + if x.timestamp == t then [x] else []
    decreases |s|
  {
    if s == [] || s[|s| - 1].timestamp <= x.timestamp {
      assert (s + [x])[..|s|] == s;
    } else {
      var front, last := s[..|s| - 1], s[|s| - 1];
      InsertStable(front, x, t);
      var u := Insert(front, x);
      assert (u + [last])[..|u|] == u;
    }
  }

  /** Candles of equal time keep their order. */
  lemma {:induction false} SortStable(s: seq<Candle>, t: int)
    ensures AtTime(Sort(s), t) == AtTime(s, t)
    decreases |s|
  {
    if s == [] {
    } else {
      SortStable(s[..|s| - 1], t);
      InsertStable(Sort(s[..|s| - 1]), s[|s| - 1], t);
    }
  }

  // ------------------------------------------------------------ one signal, one candle

  function Distance(s: Signal): real {
    if s.direction.Long? then s.entry - s.sl else s.sl - s.entry
  }

  function Risk(s: Signal): (r: real)
    ensures r > 0.0
  {
    if Distance(s) <= 0.0 then 1.0 else Distance(s)
  }

  predicate Later(s: Signal, c: Candle) {
    c.timestamp > s.timestamp
  }

  predicate StopHit(s: Signal, c: Candle) {
    if s.direction.Long? then c.low <= s.sl else c.high >= s.sl
  }

  predicate TargetHit(s: Signal, c: Candle) {
    if s.direction.Long? then c.high >= s.tp else c.low <= s.tp
  }

  function Adverse(s: Signal, c: Candle): real {
    (if s.direction.Long? then s.entry - c.low else c.high - s.entry) / Risk(s)
  }

  function Favourable(s: Signal, c: Candle): real {
    (if s.direction.Long? then c.high - s.entry else s.entry - c.low) / Risk(s)
  }

  function TargetR(s: Signal): real {
    (if s.direction.Long? then s.tp - s.entry else s.entry - s.tp) / Risk(s)
  }

  // ----------------------------------------------------------- what the outcome should be

  predicate Touches(s: Signal, c: Candle) {
    Later(s, c) && (StopHit(s, c) || TargetHit(s, c))
  }

  /** k is the first candle after the signal that touches a level, or |cs| if none does. */
  ghost predicate FirstTouch(s: Signal, cs: seq<Candle>, k: nat) {
    && k <= |cs|
    && (forall j :: 0 <= j < k ==> !Touches(s, cs[j]))
    && (k < |cs| ==> Touches(s, cs[k]))
  }

  /** m is the largest excursion of the later candles among the first n, or 0. */
  ghost predicate Largest(s: Signal, cs: seq<Candle>, n: nat, adverse: bool, m: real)
    requires n <= |cs|
  {
    && m >= 0.0
    && (forall j :: 0 <= j < n && Later(s, cs[j]) ==> Excursion(s, cs[j], adverse) <= m)
    && (m > 0.0 ==> exists j :: 0 <= j < n && Later(s, cs[j]) && Excursion(s, cs[j], adverse) == m)
  }

  function Excursion(s: Signal, c: Candle, adverse: bool): real {
    if adverse then Adverse(s, c) else Favourable(s, c)
  }

  function Positive(m: real): Option<real> {
    if m > 0.0 then Some(m) else None
  }

  function OrZero(m: Option<real>): real {
    if m.Some? then m.value else 0.0
  }

  /** The candles that count: up to and including the exit candle. */
  function Span(cs: seq<Candle>, k: nat): nat
    requires k <= |cs|
  {
    if k < |cs| then k + 1 else k
  }

  /** The declarative meaning of an outcome over time-ordered candles. */
  ghost predicate IsOutcome(s: Signal, cs: seq<Candle>, o: Outcome) {
    exists k: nat :: FirstTouch(s, cs, k) && ExitAt(s, cs, k, o)
  }

  ghost predicate ExitAt(s: Signal, cs: seq<Candle>, k: nat, o: Outcome)
    requires k <= |cs|
  {
    && ExitRecord(s, if k < |cs| then Some(cs[k]) else None, o)
    && Largest(s, cs, Span(cs, k), true, OrZero(o.mae))
    && Largest(s, cs, Span(cs, k), false, OrZero(o.mfe))
  }

  /** The outcome as far as the exit candle alone determines it. */
  predicate ExitRecord(s: Signal, exit: Option<Candle>, o: Outcome) {
    && o.id == s.id
    && o.verdict == (if exit.None? then Unknown else if StopHit(s, exit.value) then Loss else Win)
    && o.r == (match o.verdict case Unknown => None case Loss => Some(-1.0) case Win => Some(TargetR(s)))
    && o.exitPrice == (match o.verdict case Unknown => None case Loss => Some(s.sl) case Win => Some(s.tp))
    && o.exitTime == (if exit.None? then None else Some(exit.value.timestamp))
    && o.mae == Positive(OrZero(o.mae)) && o.mfe == Positive(OrZero(o.mfe))
  }

  lemma DivisionSign(a: real, b: real)
    requires b > 0.0
    ensures a / b > 0.0 <==> a > 0.0
  {
  }

  /** One more later candle: the larger of the old maximum and its excursion. */
  lemma LargestStep(s: Signal, cs: seq<Candle>, n: nat, adverse: bool, m: real, m': real)
    requires n < |cs| && Later(s, cs[n]) && Largest(s, cs, n, adverse, m)
    requires m' == MaxReal(m, Excursion(s, cs[n], adverse))
    ensures Largest(s, cs, n + 1, adverse, m')
  {
    if m' > 0.0 && m' == m {
      var j :| 0 <= j < n && Later(s, cs[j]) && Excursion(s, cs[j], adverse) == m;
    }
  }

  lemma LargestSkip(s: Signal, cs: seq<Candle>, n: nat, adverse: bool, m: real)
    requires n < |cs| && !Later(s, cs[n]) && Largest(s, cs, n, adverse, m)
    ensures Largest(s, cs, n + 1, adverse, m)
  {
  }

  // -------------------------------------------------------------------------- the scan

  /** The first n candles are behind us, none of them touched a level. */
  ghost predicate Scanned(s: Signal, cs: seq<Candle>, n: nat, mae: real, mfe: real) {
    && n <= |cs| && (forall j :: 0 <= j < n ==> !Touches(s, cs[j]))
    && Largest(s, cs, n, true, mae) && Largest(s, cs, n, false, mfe)
  }

  /** Candle n is the first to touch a level. */
  ghost predicate Exited(s: Signal, cs: seq<Candle>, n: nat, mae: real, mfe: real) {
    && n < |cs| && FirstTouch(s, cs, n)
    && Largest(s, cs, n + 1, true, mae) && Largest(s, cs, n + 1, false, mfe)
  }

  lemma ScanStart(s: Signal, cs: seq<Candle>)
    ensures Scanned(s, cs, 0, 0.0, 0.0)
  {
  }

  lemma ScanSkip(s: Signal, cs: seq<Candle>, n: nat, mae: real, mfe: real)
    requires Scanned(s, cs, n, mae, mfe) && n < |cs| && !Later(s, cs[n])
    ensures Scanned(s, cs, n + 1, mae, mfe)
  {
    hide Largest;
    LargestSkip(s, cs, n, true, mae);
    LargestSkip(s, cs, n, false, mfe);
  }

  lemma ScanOn(s: Signal, cs: seq<Candle>, n: nat, mae: real, mfe: real)
    requires Scanned(s, cs, n, mae, mfe) && n < |cs| && Later(s, cs[n])
    ensures var mae', mfe' := MaxReal(mae, Adverse(s, cs[n])), MaxReal(mfe, Favourable(s, cs[n]));
      if StopHit(s, cs[n]) || TargetHit(s, cs[n]) then Exited(s, cs, n, mae', mfe')
      else Scanned(s, cs, n + 1, mae', mfe')
  {
    hide Largest, Later, StopHit, TargetHit, Adverse, Favourable;
    LargestStep(s, cs, n, true, mae, MaxReal(mae, Adverse(s, cs[n])));
    LargestStep(s, cs, n, false, mfe, MaxReal(mfe, Favourable(s, cs[n])));
  }

  lemma Exits(s: Signal, cs: seq<Candle>, k: nat, mae: real, mfe: real, o: Outcome)
    requires Exited(s, cs, k, mae, mfe) || (k == |cs| && Scanned(s, cs, k, mae, mfe))
    requires o.mae == Positive(mae) && o.mfe == Positive(mfe)
    requires ExitRecord(s, if k < |cs| then Some(cs[k]) else None, o)
    ensures IsOutcome(s, cs, o)
  {
    hide Touches, ExitRecord;
    assert ExitAt(s, cs, k, o);
  }

  /** The updates one later candle causes. */
  method Look(signal: Signal, candle: Candle, risk: real, mae0: real, mfe0: real)
    returns (mae: real, mfe: real, slHit: bool, tpHit: bool)
    requires risk == Risk(signal) && mae0 >= 0.0 && mfe0 >= 0.0
    ensures mae == MaxReal(mae0, Adverse(signal, candle)) && mfe == MaxReal(mfe0, Favourable(signal, candle))
    ensures slHit == StopHit(signal, candle) && tpHit == TargetHit(signal, candle)
  {
    var entry, sl, tp := signal.entry, signal.sl, signal.tp;
    DivisionSign(entry - candle.low, risk);
    DivisionSign(candle.high - entry, risk);
    mae, mfe := mae0, mfe0;
    if signal.direction.Long? {
      if candle.low < entry && (entry - candle.low) / risk > mae { mae := (entry - candle.low) / risk; }
      if candle.high > entry && (candle.high - entry) / risk > mfe { mfe := (candle.high - entry) / risk; }
      slHit, tpHit := candle.low <= sl, candle.high >= tp;
    } else {
      if candle.high > entry && (candle.high - entry) / risk > mae { mae := (candle.high - entry) / risk; }
      if candle.low < entry && (entry - candle.low) / risk > mfe { mfe := (entry - candle.low) / risk; }
      slHit, tpHit := candle.high >= sl, candle.low <= tp;
    }
  }

  method TagSignal(signal: Signal, candles: seq<Candle>) returns (o: Outcome)
    ensures IsOutcome(signal, candles, o)
  {
    hide Scanned, Exited, StopHit, TargetHit, Adverse, Favourable, IsOutcome;
    var entry, sl, tp := signal.entry, signal.sl, signal.tp;
    var risk := if signal.direction.Long? then entry - sl else sl - entry;
    if risk <= 0.0 {
      risk := 1.0;
    }
    var mae, mfe := 0.0, 0.0;
    var exitPrice: Option<real>, exitTime: Option<int>, r: Option<real>, verdict := None, None, None, Unknown;
    var i := 0;
    ghost var k := |candles|;
    ScanStart(signal, candles);
    while i < |candles|
      invariant i <= |candles| && k == |candles|
      invariant Scanned(signal, candles, i, mae, mfe) && mae >= 0.0 && mfe >= 0.0
      invariant exitPrice == None && exitTime == None && r == None && verdict == Unknown
    {
      var candle := candles[i];
      if candle.timestamp <= signal.timestamp {
        ScanSkip(signal, candles, i, mae, mfe);
        i := i + 1;
        continue;
      }
      ScanOn(signal, candles, i, mae, mfe);
      var slHit, tpHit;
      mae, mfe, slHit, tpHit := Look(signal, candle, risk, mae, mfe);
      if slHit && tpHit {
        exitPrice, exitTime, verdict, r := Some(sl), Some(candle.timestamp), Loss, Some(-1.0);
        k := i;
        break;
      } else if slHit {
        exitPrice, exitTime, verdict, r := Some(sl), Some(candle.timestamp), Loss, Some(-1.0);
        k := i;
        break;
      } else if tpHit {
        exitPrice, exitTime, verdict := Some(tp), Some(candle.timestamp), Win;
        r := Some((if signal.direction.Long? then tp - entry else entry - tp) / risk);
        k := i;
        break;
      }
      i := i + 1;
    }
    o := Outcome(
      signal.id, verdict, r, if mae > 0.0 then Some(mae) else None, if mfe > 0.0 then Some(mfe) else None,
      exitPrice, exitTime);
    Exits(signal, candles, k, mae, mfe, o);
  }

  /** `tieBreak` is accepted and never looked at. */
  method TagFromCandles(signals: seq<Signal>, candles: seq<Candle>, tieBreak: string) returns (outcomes: seq<Outcome>)
    ensures |outcomes| == |signals|
    ensures forall i :: 0 <= i < |signals| ==> IsOutcome(signals[i], Sort(candles), outcomes[i])
  {
    var sorted := Sort(candles);
    outcomes := [];
    for i := 0 to |signals|
      invariant |outcomes| == i
      invariant forall j :: 0 <= j < i ==> IsOutcome(signals[j], sorted, outcomes[j])
    {
      var o := TagSignal(signals[i], sorted);
      outcomes := outcomes + [o];
    }
  }
}
