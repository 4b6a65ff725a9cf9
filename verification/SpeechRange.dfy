/**
 * When the 16-bit speech decoder is the exact one: while the total magnitude received stays below
 * 2^15. The first step that exceeds it can send the traceback astray.
 */
module SpeechRange {
  import opened Wrappers
  import opened BitSeq
  import opened Trellis
  import opened ConvCode
  import opened BranchMetrics
  import opened CodeDistance
  import opened SpeechCode
  import opened SpeechMetrics
  import opened SpeechViterbi
  import opened Viterbi

  // ---- Exact metrics ----

  /**
   * Metric m of a state with path metric best after receiving the given total magnitude: twice the
   * path cost less the magnitude when the state is reached, otherwise near the start value.
   */
  predicate StateMetric(m: int, best: Option<int>, magnitude: nat) {
    match best
    case Some(v) => m == 2 * v - magnitude && -(magnitude as int) <= m <= magnitude
    case None => START - magnitude <= m <= START + magnitude
  }

  lemma BranchMetricBound(rx: seq<int>, sr: nat)
    requires |rx| == 3 && sr < 32
    ensures -(TripleMagnitude(rx) as int) <= BranchMetric(rx, sr) <= TripleMagnitude(rx)
  {
    PenaltyBelow(SpeechOutputs(sr), rx);
  }

  lemma LowAndHigh(w: seq<Row>, i: nat, s: nat)
    requires i < |w| && s < 16
    ensures Candidate(w, i, s) == match Best(w, i, s / 2) case None => None case Some(v) => Some(v + w[i][s])
    ensures Candidate(w, i, s + 16) == match Best(w, i, s / 2 + 8) case None => None case Some(v) => Some(v + w[i][s + 16])
  {
    assert (s + 16) / 2 == s / 2 + 8;
  }

  /** Choosing the smaller of the two branches keeps the metric right and decides as TakesHigh does. */
  lemma SelectState(w: seq<Row>, i: nat, s: nat, rx: seq<int>, p0: int, p1: int, magnitude: nat, after: nat)
    requires i < |w| && s < 16 && |rx| == 3 && w[i] == SpeechRow(rx)
    requires StateMetric(p0, Best(w, i, s / 2), magnitude) && StateMetric(p1, Best(w, i, s / 2 + 8), magnitude)
    requires after == magnitude + TripleMagnitude(rx)
    requires Best(w, i, s / 2).None? || Best(w, i, s / 2 + 8).None? ==> 2 * after < START
    ensures var m0, m1 := p0 + BranchMetric(rx, s), p1 - BranchMetric(rx, s);
            && StateMetric(if m1 < m0 then m1 else m0, Best(w, i + 1, s), after)
            && (Best(w, i + 1, s).Some? ==> (m1 < m0) == TakesHigh(w, i, s))
  {
    BranchMetricBound(rx, s);
    HighBranchIsNegated(rx, s);
    SelectSurvivor(w, i, s);
    LowAndHigh(w, i, s);
  }

  predicate IsInt16(x: int) {
    -0x8000 <= x < 0x8000
  }

  /** Neither candidate overflows. */
  lemma CandidatesFit(rx: seq<int>, s: nat, best0: Option<int>, best1: Option<int>, p0: int, p1: int, magnitude: nat, after: nat)
    requires |rx| == 3 && s < 16 && StateMetric(p0, best0, magnitude) && StateMetric(p1, best1, magnitude)
    requires after == magnitude + TripleMagnitude(rx) && after < 0x8000
    requires best0.None? || best1.None? ==> 2 * after < START
    ensures IsInt16(p0 + BranchMetric(rx, s)) && IsInt16(p1 - BranchMetric(rx, s))
  {
    BranchMetricBound(rx, s);
  }

  /** After four steps every state is reached. */
  lemma EveryStateReached(w: seq<Row>, i: nat, s: nat)
    requires 4 <= i <= |w| && s < 16
    ensures Best(w, i, s).Some?
  {
    var x := EndingIn(i, s);
    BestIsLowerBound(w, x);
  }

  lemma EndingIn(i: nat, s: nat) returns (x: seq<bool>)
    requires i >= 4 && s < 16
    ensures |x| == i && StateAfter(x) == s
  {
    var a, b, c, d := s / 8 == 1, (s / 4) % 2 == 1, (s / 2) % 2 == 1, s % 2 == 1;
    ZerosStayInZero(i - 4);
    x := Zeros(i - 4) + [a, b, c, d];
    FourMoreBits(Zeros(i - 4), a, b, c, d);
    FourBits(s);
  }

  lemma FourBits(s: nat)
    requires s < 16
    ensures 8 * BitValue(s / 8 == 1) + 4 * BitValue((s / 4) % 2 == 1) + 2 * BitValue((s / 2) % 2 == 1) + BitValue(s % 2 == 1) == s
  {
    match s
    case 0 => case 1 => case 2 => case 3 => case 4 => case 5 => case 6 => case 7 =>
    case 8 => case 9 => case 10 => case 11 => case 12 => case 13 => case 14 => case _ =>
  }

  lemma OneMoreBit(x: seq<bool>, b: bool)
    ensures StateAfter(x + [b]) == (2 * StateAfter(x) + BitValue(b)) % 16
  {
    RegisterExtend(x, b);
  }

  /** The state after four bits is those four bits. */
  lemma FourMoreBits(z: seq<bool>, a: bool, b: bool, c: bool, d: bool)
    ensures StateAfter(z + [a, b, c, d]) == 8 * BitValue(a) + 4 * BitValue(b) + 2 * BitValue(c) + BitValue(d)
  {
    var y := z + [a, b];
    TwoMoreBits(z, a, b);
    TwoMoreBits(y, c, d);
    assert z + [a, b, c, d] == y + [c, d];
    FourShifts(StateAfter(z), BitValue(a), BitValue(b), BitValue(c), BitValue(d));
  }

  lemma TwoMoreBits(x: seq<bool>, a: bool, b: bool)
    ensures StateAfter(x + [a, b]) == (2 * ((2 * StateAfter(x) + BitValue(a)) % 16) + BitValue(b)) % 16
  {
    OneMoreBit(x, a);
    OneMoreBit(x + [a], b);
    assert x + [a, b] == x + [a] + [b];
  }

  lemma FourShifts(s: nat, a: nat, b: nat, c: nat, d: nat)
    requires s < 16 && a <= 1 && b <= 1 && c <= 1 && d <= 1
    ensures (2 * ((2 * ((2 * ((2 * s + a) % 16) + b) % 16) + c) % 16) + d) % 16 == 8 * a + 4 * b + 2 * c + d
  {
    ShiftModulo(2 * s + a, b);
    ShiftModulo(4 * s + 2 * a + b, c);
    ShiftModulo(8 * s + 4 * a + 2 * b + c, d);
    SixteenFold(s, 8 * a + 4 * b + 2 * c + d);
  }

  lemma ShiftModulo(x: nat, b: nat)
    requires b <= 1
    ensures (2 * (x % 16) + b) % 16 == (2 * x + b) % 16
  {
    SixteensVanish(2 * (x / 16), 2 * (x % 16) + b);
    assert x == 16 * (x / 16) + x % 16;
  }

  lemma SixteensVanish(k: nat, r: nat)
    ensures (16 * k + r) % 16 == r % 16
  {
  }

  lemma SixteenFold(s: nat, r: nat)
    requires r < 16
    ensures (16 * s + r) % 16 == r
  {
    SixteensVanish(s, r);
  }

  /** The magnitudes for which nothing overflows and no start value wins. */
  predicate InRange(soft: seq<int>, n: nat)
    requires 3 * n <= |soft|
  {
    SoftMagnitude(soft, n) < 0x8000 && 2 * SoftMagnitude(soft, if n < 4 then n else 4) < START
  }

  lemma {:induction false} MagnitudeGrows(soft: seq<int>, i: nat, n: nat)
    requires i <= n && 3 * n <= |soft|
    ensures SoftMagnitude(soft, i) <= SoftMagnitude(soft, n)
  {
    if i < n {
      MagnitudeGrows(soft, i, n - 1);
    }
  }

  /** Metrics p of all states after i steps are exact. */
  ghost predicate Exact(p: seq<int>, w: seq<Row>, i: nat, magnitude: nat)
    requires |p| == 16 && i <= |w|
  {
    ExactUpTo(p, w, i, magnitude, 16)
  }

  ghost predicate ExactUpTo(p: seq<int>, w: seq<Row>, i: nat, magnitude: nat, n: nat)
    requires |p| == 16 && i <= |w| && n <= 16
  {
    n == 0 || (ExactUpTo(p, w, i, magnitude, n - 1) && ExactState(p, w, i, n - 1, magnitude))
  }

  lemma {:induction false} ExactIffAll(p: seq<int>, w: seq<Row>, i: nat, magnitude: nat, n: nat)
    requires |p| == 16 && i <= |w| && n <= 16
    ensures ExactUpTo(p, w, i, magnitude, n) <==> forall t :: 0 <= t < n ==> ExactState(p, w, i, t, magnitude)
  {
    if n > 0 {
      ExactIffAll(p, w, i, magnitude, n - 1);
    }
  }

  lemma ExactAt(p: seq<int>, w: seq<Row>, i: nat, magnitude: nat, t: nat)
    requires |p| == 16 && i <= |w| && Exact(p, w, i, magnitude) && t < 16
    ensures ExactState(p, w, i, t, magnitude)
  {
    ExactIffAll(p, w, i, magnitude, 16);
  }

  predicate ExactState(p: seq<int>, w: seq<Row>, i: nat, t: nat, magnitude: nat)
    requires |p| == 16 && i <= |w| && t < 16
  {
    StateMetric(p[t], Best(w, i, Rev(t)), magnitude)
  }

  /** The 16-bit decision of a state is the exact one if the state is reached. */
  predicate ExactDecision(p: seq<int>, rx: seq<int>, w: seq<Row>, i: nat, t: nat)
    requires |p| == 16 && |rx| == 3 && i < |w| && t < 16
  {
    Best(w, i + 1, Rev(t)).Some? ==> (High16(p, rx, t) < Low16(p, rx, t)) == TakesHigh(w, i, Rev(t))
  }

  /** Neither candidate of state t overflows. */
  predicate Fits(p: seq<int>, rx: seq<int>, t: nat)
    requires |p| == 16 && |rx| == 3 && t < 16
  {
    IsInt16(p[(2 * t) % 16] + BranchMetric(rx, Rev(t))) && IsInt16(p[(2 * t) % 16 + 1] - BranchMetric(rx, Rev(t)))
  }

  /** One 16-bit step into state s without overflow, from exact metrics of its two predecessors. */
  lemma SelectWrapped(w: seq<Row>, i: nat, s: nat, rx: seq<int>, p0: int, p1: int, magnitude: nat, after: nat)
    requires i < |w| && s < 16 && |rx| == 3 && w[i] == SpeechRow(rx)
    requires StateMetric(p0, Best(w, i, s / 2), magnitude) && StateMetric(p1, Best(w, i, s / 2 + 8), magnitude)
    requires IsInt16(p0 + BranchMetric(rx, s)) && IsInt16(p1 - BranchMetric(rx, s))
    requires after == magnitude + TripleMagnitude(rx) && (i < 4 ==> 2 * after < START)
    ensures var m0, m1 := Int16(p0 + BranchMetric(rx, s)), Int16(p1 - BranchMetric(rx, s));
            && StateMetric(if m1 < m0 then m1 else m0, Best(w, i + 1, s), after)
            && (Best(w, i + 1, s).Some? ==> (m1 < m0) == TakesHigh(w, i, s))
  {
    if i >= 4 {
      EveryStateReached(w, i, s / 2);
      EveryStateReached(w, i, s / 2 + 8);
    }
    Int16Fits(p0 + BranchMetric(rx, s));
    Int16Fits(p1 - BranchMetric(rx, s));
    SelectState(w, i, s, rx, p0, p1, magnitude, after);
  }

  lemma SelectState16(p: seq<int>, rx: seq<int>, w: seq<Row>, i: nat, t: nat, magnitude: nat, after: nat)
    requires |p| == 16 && |rx| == 3 && i < |w| && t < 16 && w[i] == SpeechRow(rx) && Exact(p, w, i, magnitude) && Fits(p, rx, t)
    requires after == magnitude + TripleMagnitude(rx) && (i < 4 ==> 2 * after < START)
    ensures ExactState(Step16(p, rx), w, i + 1, t, after) && ExactDecision(p, rx, w, i, t)
  {
    var u := (2 * t) % 16;
    RevStep(t);
    ExactAt(p, w, i, magnitude, u);
    ExactAt(p, w, i, magnitude, u + 1);
    SelectWrapped(w, i, Rev(t), rx, p[u], p[u + 1], magnitude, after);
  }

  lemma InRangeFits(p: seq<int>, rx: seq<int>, w: seq<Row>, i: nat, t: nat, magnitude: nat, after: nat)
    requires |p| == 16 && |rx| == 3 && i < |w| && t < 16 && Exact(p, w, i, magnitude)
    requires after == magnitude + TripleMagnitude(rx) && after < 0x8000 && (i < 4 ==> 2 * after < START)
    ensures Fits(p, rx, t)
  {
    var u, s := (2 * t) % 16, Rev(t);
    RevStep(t);
    ExactAt(p, w, i, magnitude, u);
    ExactAt(p, w, i, magnitude, u + 1);
    if i >= 4 {
      EveryStateReached(w, i, s / 2);
      EveryStateReached(w, i, s / 2 + 8);
    }
    CandidatesFit(rx, s, Best(w, i, s / 2), Best(w, i, s / 2 + 8), p[u], p[u + 1], magnitude, after);
  }

  /** A step without overflow keeps all states exact. */
  lemma FittingStep(p: seq<int>, q: seq<int>, rx: seq<int>, w: seq<Row>, i: nat, j: nat, magnitude: nat, after: nat)
    requires j == i + 1 && |p| == 16 && |rx| == 3 && i < |w| && w[i] == SpeechRow(rx)
    requires Exact(p, w, i, magnitude) && q == Step16(p, rx)
    requires after == magnitude + TripleMagnitude(rx) && (i < 4 ==> 2 * after < START)
    requires forall t: nat :: t < 16 ==> Fits(p, rx, t)
    ensures Exact(q, w, j, after)
  {
    forall t | 0 <= t < 16
      ensures ExactState(q, w, j, t, after)
    {
      SelectState16(p, rx, w, i, t, magnitude, after);
    }
    ExactIffAll(q, w, j, after, 16);
  }

  /** A step in range keeps all states exact. */
  lemma StepKeepsExact(p: seq<int>, q: seq<int>, rx: seq<int>, w: seq<Row>, i: nat, j: nat, magnitude: nat, after: nat)
    requires j == i + 1 && |p| == 16 && |rx| == 3 && i < |w| && w[i] == SpeechRow(rx)
    requires Exact(p, w, i, magnitude) && q == Step16(p, rx)
    requires after == magnitude + TripleMagnitude(rx) && after < 0x8000 && (i < 4 ==> 2 * after < START)
    ensures Exact(q, w, j, after)
  {
    forall t: nat | t < 16
      ensures Fits(p, rx, t)
    {
      InRangeFits(p, rx, w, i, t, magnitude, after);
    }
    FittingStep(p, q, rx, w, i, j, magnitude, after);
  }

  lemma RoomForStep(soft: seq<int>, n: nat, i: nat, j: nat)
    requires j == i + 1 <= n && 3 * n <= |soft| && InRange(soft, n)
    ensures SoftMagnitude(soft, j) == SoftMagnitude(soft, i) + TripleMagnitude(soft[3 * i..3 * i + 3])
    ensures SoftMagnitude(soft, j) < 0x8000 && (i < 4 ==> 2 * SoftMagnitude(soft, j) < START)
  {
    MagnitudeGrows(soft, j, n);
    if i < 4 {
      MagnitudeGrows(soft, j, if n < 4 then n else 4);
    }
  }

  // ---- All steps ----

  /** ms lists the metrics of n steps. */
  ghost predicate IsHistory(ms: seq<seq<int>>, soft: seq<int>, n: nat)
    requires 3 * n <= |soft|
  {
    && |ms| == n + 1 && (forall i :: 0 <= i <= n ==> |ms[i]| == 16)
    && ms[0][0] == 0 && (forall t :: 1 <= t < 16 ==> ms[0][t] == START)
    && forall i: nat :: i < n ==> Follows(ms, soft, i)
  }

  predicate Follows(ms: seq<seq<int>>, soft: seq<int>, i: nat) {
    i + 1 < |ms| && 3 * i + 3 <= |soft| && |ms[i]| == 16 && ms[i + 1] == Step16(ms[i], soft[3 * i..3 * i + 3])
  }

  ghost function History(soft: seq<int>, n: nat): (ms: seq<seq<int>>)
    requires 3 * n <= |soft|
    ensures |ms| == n + 1
    ensures forall i :: 0 <= i <= n ==> ms[i] == Metrics16(soft, i)
  {
    seq(n + 1, i requires 0 <= i <= n => Metrics16(soft, i))
  }

  lemma MetricsAreHistory(soft: seq<int>, n: nat)
    requires 3 * n <= |soft|
    ensures IsHistory(History(soft, n), soft, n)
  {
    var ms := History(soft, n);
    forall i: nat | i < n
      ensures Follows(ms, soft, i)
    {
      NextMetrics(soft, i, i + 1);
    }
  }

  lemma StartIsExact(p: seq<int>, w: seq<Row>)
    requires |p| == 16 && p[0] == 0 && forall t :: 1 <= t < 16 ==> p[t] == START
    ensures Exact(p, w, 0, 0)
  {
    forall t | 0 <= t < 16
      ensures ExactState(p, w, 0, t, 0)
    {
      RevTwice(t);
    }
    ExactIffAll(p, w, 0, 0, 16);
  }

  lemma {:induction false} HistoryIsExact(ms: seq<seq<int>>, soft: seq<int>, w: seq<Row>, n: nat, m: nat, i: nat)
    requires i <= m <= n && 3 * n <= |soft| && InRange(soft, m) && w == MotherTable(soft, n) && IsHistory(ms, soft, n)
    ensures Exact(ms[i], w, i, SoftMagnitude(soft, i))
    decreases i, 1
  {
    if i == 0 {
      HistoryStart(ms, soft, w, n);
    } else {
      LongerHistory(ms, soft, w, n, m, i - 1, i);
    }
  }

  lemma HistoryStart(ms: seq<seq<int>>, soft: seq<int>, w: seq<Row>, n: nat)
    requires 3 * n <= |soft| && w == MotherTable(soft, n) && IsHistory(ms, soft, n)
    ensures Exact(ms[0], w, 0, SoftMagnitude(soft, 0))
  {
    StartIsExact(ms[0], w);
  }

  lemma {:induction false} LongerHistory(ms: seq<seq<int>>, soft: seq<int>, w: seq<Row>, n: nat, m: nat, i: nat, j: nat)
    requires j == i + 1 <= m <= n && 3 * n <= |soft| && InRange(soft, m) && w == MotherTable(soft, n) && IsHistory(ms, soft, n)
    ensures Exact(ms[j], w, j, SoftMagnitude(soft, j))
    decreases j, 0
  {
    HistoryIsExact(ms, soft, w, n, m, i);
    HistoryStep(ms, soft, w, n, m, i, j);
  }

  lemma HistoryFollows(ms: seq<seq<int>>, soft: seq<int>, n: nat, i: nat, j: nat)
    requires j == i + 1 <= n && 3 * n <= |soft| && IsHistory(ms, soft, n)
    ensures |ms[i]| == 16 && ms[j] == Step16(ms[i], soft[3 * i..3 * i + 3])
  {
    assert Follows(ms, soft, i);
  }

  lemma RowOfStep(soft: seq<int>, n: nat, i: nat)
    requires i < n && 3 * n <= |soft|
    ensures MotherTable(soft, n)[i] == SpeechRow(soft[3 * i..3 * i + 3])
  {
  }

  lemma HistoryStep(ms: seq<seq<int>>, soft: seq<int>, w: seq<Row>, n: nat, m: nat, i: nat, j: nat)
    requires j == i + 1 <= m <= n && 3 * n <= |soft| && InRange(soft, m) && w == MotherTable(soft, n) && IsHistory(ms, soft, n)
    requires Exact(ms[i], w, i, SoftMagnitude(soft, i))
    ensures Exact(ms[j], w, j, SoftMagnitude(soft, j))
  {
    HistoryFollows(ms, soft, n, i, j);
    RowOfStep(soft, n, i);
    RoomForStep(soft, m, i, j);
    StepKeepsExact(ms[i], ms[j], soft[3 * i..3 * i + 3], w, i, j, SoftMagnitude(soft, i), SoftMagnitude(soft, j));
  }

  /** While the first m steps are in range, the metrics of all states are exact after each of them. */
  lemma MetricsAreExact(soft: seq<int>, n: nat, m: nat, i: nat)
    requires i <= m <= n && 3 * n <= |soft| && InRange(soft, m)
    ensures Exact(Metrics16(soft, i), MotherTable(soft, n), i, SoftMagnitude(soft, i))
  {
    MetricsAreHistory(soft, n);
    HistoryIsExact(History(soft, n), soft, MotherTable(soft, n), n, m, i);
  }

  /** The 16-bit decision of a reached state is the trellis's. */
  predicate SameDecision(soft: seq<int>, w: seq<Row>, i: nat, t: nat)
    requires i < |w| && 3 * i + 3 <= |soft| && t < 16
  {
    Best(w, i + 1, Rev(t)).Some? ==> TakesHigh16(soft, i, t) == TakesHigh(w, i, Rev(t))
  }

  ghost predicate DecidesAlike(soft: seq<int>, w: seq<Row>, n: nat)
    requires n <= |w| && 3 * n <= |soft|
  {
    n == 0 || (DecidesAlike(soft, w, n - 1) && SameStep(soft, w, n - 1))
  }

  ghost predicate SameStep(soft: seq<int>, w: seq<Row>, i: nat)
    requires i < |w| && 3 * i + 3 <= |soft|
  {
    forall t: nat :: t < 16 ==> SameDecision(soft, w, i, t)
  }

  lemma FittingDecision(soft: seq<int>, w: seq<Row>, i: nat, t: nat, magnitude: nat, p: seq<int>, rx: seq<int>)
    requires i < |w| && 3 * i + 3 <= |soft| && t < 16 && p == Metrics16(soft, i) && rx == soft[3 * i..3 * i + 3]
    requires w[i] == SpeechRow(rx) && Exact(p, w, i, magnitude) && Fits(p, rx, t)
    requires i < 4 ==> 2 * (magnitude + TripleMagnitude(rx)) < START
    ensures SameDecision(soft, w, i, t)
  {
    SelectState16(p, rx, w, i, t, magnitude, magnitude + TripleMagnitude(rx));
  }

  /** Decisions agree wherever a state is reached. */
  lemma DecisionIsExact(soft: seq<int>, w: seq<Row>, n: nat, m: nat, i: nat, j: nat, t: nat)
    requires j == i + 1 <= m <= n && 3 * n <= |soft| && InRange(soft, m) && w == MotherTable(soft, n) && t < 16
    ensures SameDecision(soft, w, i, t)
  {
    MetricsAreExact(soft, n, m, i);
    RoomForStep(soft, m, i, j);
    InRangeFits(Metrics16(soft, i), soft[3 * i..3 * i + 3], w, i, t, SoftMagnitude(soft, i), SoftMagnitude(soft, j));
    FittingDecision(soft, w, i, t, SoftMagnitude(soft, i), Metrics16(soft, i), soft[3 * i..3 * i + 3]);
  }

  /** With the same decisions the 16-bit traceback is the exact one. */
  lemma {:induction false} TraceIsPath(soft: seq<int>, w: seq<Row>, i: nat, t: nat)
    requires i <= |w| && 3 * i <= |soft| && t < 16 && DecidesAlike(soft, w, i) && Best(w, i, Rev(t)).Some?
    ensures Trace16(soft, i, t) == Path(w, i, Rev(t))
    decreases i, 1
  {
    if i > 0 {
      LongerTraceIsPath(soft, w, i - 1, i, t);
    }
  }

  lemma {:induction false} LongerTraceIsPath(soft: seq<int>, w: seq<Row>, i: nat, j: nat, t: nat)
    requires j == i + 1 <= |w| && 3 * j <= |soft| && t < 16 && DecidesAlike(soft, w, j) && Best(w, j, Rev(t)).Some?
    ensures Trace16(soft, j, t) == Path(w, j, Rev(t))
    decreases j, 0
  {
    AlikeBefore(soft, w, i, j, t);
    var u := TraceFollowsPath(soft, w, i, j, t);
    TraceIsPath(soft, w, i, u);
  }

  lemma AlikeBefore(soft: seq<int>, w: seq<Row>, i: nat, j: nat, t: nat)
    requires j == i + 1 <= |w| && 3 * j <= |soft| && t < 16 && DecidesAlike(soft, w, j)
    ensures DecidesAlike(soft, w, i) && SameDecision(soft, w, i, t)
  {
  }

  lemma TraceFollowsPath(soft: seq<int>, w: seq<Row>, i: nat, j: nat, t: nat) returns (u: nat)
    requires j == i + 1 <= |w| && 3 * j <= |soft| && t < 16 && SameDecision(soft, w, i, t)
    requires Best(w, j, Rev(t)).Some?
    ensures u < 16 && Best(w, i, Rev(u)).Some?
    ensures Trace16(soft, j, t) == Trace16(soft, i, u) + [t / 8 == 1] && Path(w, j, Rev(t)) == Path(w, i, Rev(u)) + [t / 8 == 1]
  {
    u := Previous16(soft, i, t);
    PreviousIsPredecessor(soft, w, i, t, u);
    SurvivorMetric(w, i, Rev(t));
    PathExtends(w, i, j, Rev(t));
    TraceExtends(soft, i, j, t);
  }

  lemma PathExtends(w: seq<Row>, i: nat, j: nat, s: nat)
    requires j == i + 1 <= |w| && s < 16
    ensures Path(w, j, s) == Path(w, i, Predecessor(w, i, s)) + [s % 2 == 1]
  {
  }

  lemma PreviousIsPredecessor(soft: seq<int>, w: seq<Row>, i: nat, t: nat, u: nat)
    requires i < |w| && 3 * i + 3 <= |soft| && t < 16 && u == Previous16(soft, i, t)
    requires TakesHigh16(soft, i, t) == TakesHigh(w, i, Rev(t))
    ensures Rev(u) == Predecessor(w, i, Rev(t)) && (t / 8 == 1) == (Rev(t) % 2 == 1)
  {
    RevStep(t);
    RevTwice(t);
  }

  /** With the same decisions the 16-bit decoder returns the bits of the exact one. */
  lemma SameBits(soft: seq<int>, w: seq<Row>)
    requires 3 * |w| <= |soft| && DecidesAlike(soft, w, |w|)
    ensures Decode16(soft, |w|) == Trellis.Decode(w)
  {
    ZerosStayInZero(|w|);
    BestIsLowerBound(w, Zeros(|w|));
    TraceIsPath(soft, w, |w|, 0);
  }

  /** In range the 16-bit decoder returns the bits of the exact one. */
  lemma DecodeIsExact(soft: seq<int>, n: nat)
    requires 3 * n <= |soft| && InRange(soft, n)
    ensures Decode16(soft, n) == Trellis.Decode(MotherTable(soft, n))
  {
    InRangeDecisions(soft, MotherTable(soft, n), n, n);
    SameBits(soft, MotherTable(soft, n));
  }

  lemma {:induction false} InRangeDecisions(soft: seq<int>, w: seq<Row>, n: nat, i: nat)
    requires i <= n && 3 * n <= |soft| && InRange(soft, n) && w == MotherTable(soft, n)
    ensures DecidesAlike(soft, w, i)
  {
    if i > 0 {
      InRangeDecisions(soft, w, n, i - 1);
      InRangeStep(soft, w, n, i - 1, i);
    }
  }

  lemma InRangeStep(soft: seq<int>, w: seq<Row>, n: nat, i: nat, j: nat)
    requires j == i + 1 <= n && 3 * n <= |soft| && InRange(soft, n) && w == MotherTable(soft, n)
    ensures SameStep(soft, w, i)
  {
    forall t: nat | t < 16
      ensures SameDecision(soft, w, i, t)
    {
      DecisionIsExact(soft, w, n, n, i, j, t);
    }
  }

  // ---- Magnitudes of a burst ----

  /** A depunctured stream has the magnitude of the received values. */
  lemma {:induction false} DepuncturedMagnitude(y: seq<int>, n: nat, i: nat)
    requires i <= n && Offset(n) <= |y|
    ensures Offset(i) <= |y| && SoftMagnitude(SpeechDepunctured(y, n), i) == Magnitude(y, Offset(i))
  {
    OffsetMonotone(i, n);
    if i > 0 {
      DepuncturedMagnitude(y, n, i - 1);
      MagnitudeOfNext(y, n, SpeechDepunctured(y, n), i - 1, i);
    }
  }

  lemma MagnitudeOfNext(y: seq<int>, n: nat, soft: seq<int>, i: nat, j: nat)
    requires j == i + 1 <= n && Offset(n) <= |y| && soft == SpeechDepunctured(y, n)
    requires Offset(i) <= |y| && SoftMagnitude(soft, i) == Magnitude(y, Offset(i))
    ensures Offset(j) <= |y| && SoftMagnitude(soft, j) == Magnitude(y, Offset(j))
  {
    OffsetMonotone(j, n);
    DepuncturedAt(y, n, i);
    SpreadMagnitude(y, i);
  }

  lemma SpreadMagnitude(y: seq<int>, i: nat)
    requires Offset(i + 1) <= |y|
    ensures Magnitude(y, Offset(i + 1)) == Magnitude(y, Offset(i)) + TripleMagnitude(Spread(y, i))
  {
    var o := Offset(i);
    assert Offset(i + 1) == o + KeepCount(i);
    UpToThree(y, o, KeepCount(i));
  }

  lemma UpToThree(y: seq<int>, o: nat, n: nat)
    requires o + n <= |y| && 1 <= n <= 3
    ensures Magnitude(y, o + n) == Magnitude(y, o) + Abs(y[o]) + (if n >= 2 then Abs(y[o + 1]) else 0)
                                   + if n >= 3 then Abs(y[o + 2]) else 0
  {
    assert Magnitude(y, o + 1) == Magnitude(y, o) + Abs(y[o]);
    if n >= 2 {
      assert Magnitude(y, o + 2) == Magnitude(y, o + 1) + Abs(y[o + 1]);
    }
  }

  lemma {:induction false} MagnitudeAtMost(y: seq<int>, n: nat, bound: nat)
    requires n <= |y| && forall i :: 0 <= i < |y| ==> Abs(y[i]) <= bound
    ensures Magnitude(y, n) <= n * bound
  {
    if n > 0 {
      MagnitudeAtMost(y, n - 1, bound);
      OneMore(n - 1, n, bound);
    }
  }

  lemma OneMore(k: nat, n: nat, bound: nat)
    requires n == k + 1
    ensures n * bound == k * bound + bound
  {
  }
}
