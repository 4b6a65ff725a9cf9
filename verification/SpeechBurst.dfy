/**
 * The range of the 16-bit speech decoder on a burst. A clean burst is decoded if and only if its
 * magnitudes add up to no more than 2^15; all bursts are decoded as in exact arithmetic up to
 * magnitude 99 and not beyond.
 */
module SpeechBurst {
  import opened Wrappers
  import opened BitSeq
  import opened Trellis
  import opened ConvCode
  import opened BranchMetrics
  import opened CodeDistance
  import opened ErrorCorrection
  import opened Viterbi
  import opened SpeechCode
  import opened SpeechMetrics
  import opened SpeechViterbi
  import opened SpeechRange
  import opened SpeechOverflow
  import opened SpeechScaling
  import opened SpeechPuncture
  import opened TchS

  const LARGEST_EXACT: nat := 99

  /** 8-bit values of magnitude at most bound. */
  ghost predicate Small(s: seq<int>, bound: nat) {
    forall i :: 0 <= i < |s| ==> IsInt8(s[i]) && Abs(s[i]) <= bound
  }

  // ---- In range ----

  /** Whenever the received magnitudes sum up to less than 2^15, the 16-bit decoder is exact. */
  lemma Steps16IsExact(y: seq<int>)
    requires |y| == CODED_BITS && AllInt8(y) && Magnitude(y, CODED_BITS) < 0x8000
    ensures Steps16(y) == DecodedSteps(y)
  {
    ExactSteps(y, STEPS);
  }

  lemma ExactSteps(y: seq<int>, n: nat)
    requires n == STEPS && |y| == CODED_BITS && AllInt8(y) && Magnitude(y, CODED_BITS) < 0x8000
    ensures Offset(n) == CODED_BITS
    ensures Decode16(SpeechDepunctured(y, n), n) == SpeechDecoded(y, n)
  {
    CodedLengths(n);
    DepuncturedMagnitude(y, n, n);
    FirstSteps(y, n);
    DecodeIsExact(SpeechDepunctured(y, n), n);
    MotherTableIsSpeechTable(y, n);
  }

  /** The first four steps carry six values. */
  lemma FirstSteps(y: seq<int>, n: nat)
    requires n >= 4 && Offset(n) <= |y| && AllInt8(y)
    ensures 2 * SoftMagnitude(SpeechDepunctured(y, n), 4) < START
  {
    DepuncturedMagnitude(y, n, 4);
    assert Offset(1) == 2 && Offset(2) == 3 && Offset(3) == 5 && Offset(4) == 6;
    MagnitudeAtMost(y, 6, 128);
  }

  lemma SmallIsExact(y: seq<int>, bound: nat)
    requires |y| == CODED_BITS && Small(y, bound) && bound <= LARGEST_EXACT
    ensures Magnitude(y, CODED_BITS) < 0x8000 && Steps16(y) == DecodedSteps(y)
  {
    MagnitudeAtMost(y, CODED_BITS, LARGEST_EXACT);
    Steps16IsExact(y);
  }

  // ---- Clean bursts ----

  predicate RightSign(s: int, b: bool) {
    s != 0 && (s > 0) == b
  }

  /** Every received value has the sign of its coded bit. */
  ghost predicate RightSigns(y: seq<int>, c: seq<bool>) {
    |y| == |c| && forall j :: 0 <= j < |y| ==> RightSign(y[j], c[j])
  }

  lemma SpreadAgrees(y: seq<int>, x: seq<bool>, i: nat, j: nat, m: nat)
    requires j == i + 1 <= |x| && m < 3 && RightSigns(y, SpeechCodeword(x)) && AllInt8(y)
    ensures Offset(j) <= |y|
    ensures var s := Spread(y, i)[m];
            && IsInt8(s) && SoftPenalty(SpeechOutputs(RegisterAt(x, i))[m], s) == 0 && (m == 0 ==> s != 0)
  {
    OffsetMonotone(j, |x|);
    SpreadAt(y, i, m);
    if m < KeepCount(i) {
      CodewordOfStep(x, i, j, m);
      RightSignHasNoPenalty(y[Offset(i) + m], SpeechCodeword(x)[Offset(i) + m]);
    }
  }

  lemma RightSignHasNoPenalty(s: int, b: bool)
    requires RightSign(s, b)
    ensures SoftPenalty(b, s) == 0 && s != 0
  {
  }

  /** A step of a clean burst favours the sent path and carries between 1 and 384 of magnitude. */
  lemma CleanStep(y: seq<int>, x: seq<bool>, i: nat, j: nat)
    requires j == i + 1 <= |x| && RightSigns(y, SpeechCodeword(x)) && AllInt8(y)
    ensures Offset(j) <= |y|
    ensures SpeechRow(Spread(y, i))[RegisterAt(x, i)] == 0 && 1 <= TripleMagnitude(Spread(y, i)) <= STEP_LIMIT
    ensures forall sr :: 0 <= sr < 32 ==> 0 <= SpeechRow(Spread(y, i))[sr] <= STEP_LIMIT
  {
    SpreadAgrees(y, x, i, j, 0);
    SpreadAgrees(y, x, i, j, 1);
    SpreadAgrees(y, x, i, j, 2);
    SmallTriple(Spread(y, i));
    forall sr | 0 <= sr < 32
      ensures 0 <= SpeechRow(Spread(y, i))[sr] <= STEP_LIMIT
    {
      PenaltyBelow(SpeechOutputs(sr), Spread(y, i));
    }
  }

  /** Soft values that favour the path x in every step. */
  ghost predicate CleanSoft(soft: seq<int>, x: seq<bool>, w: seq<Row>) {
    && 4 <= |x| && 3 * |x| <= |soft| && w == MotherTable(soft, |x|) && Favours(w, x)
    && 2 * SoftMagnitude(soft, 4) < START && CarryMagnitude(soft, |x|)
  }

  ghost predicate CarryMagnitude(soft: seq<int>, n: nat) {
    n == 0 || (CarryMagnitude(soft, n - 1) && CarriesMagnitude(soft, n - 1))
  }

  lemma {:induction false} CarriesAt(soft: seq<int>, n: nat, i: nat)
    requires i < n && CarryMagnitude(soft, n)
    ensures CarriesMagnitude(soft, i)
  {
    if i < n - 1 {
      CarriesAt(soft, n - 1, i);
    }
  }

  predicate CarriesMagnitude(soft: seq<int>, i: nat) {
    3 * i + 3 <= |soft| && 1 <= TripleMagnitude(soft[3 * i..3 * i + 3]) <= STEP_LIMIT
  }

  lemma CleanIsCleanSoft(y: seq<int>, x: seq<bool>, soft: seq<int>)
    requires |x| >= 4 && RightSigns(y, SpeechCodeword(x)) && AllInt8(y) && soft == SpeechDepunctured(y, |x|)
    ensures CleanSoft(soft, x, MotherTable(soft, |x|))
  {
    CleanUpTo(y, x, soft, MotherTable(soft, |x|), |x|);
    FirstSteps(y, |x|);
  }

  lemma {:induction false} CleanUpTo(y: seq<int>, x: seq<bool>, soft: seq<int>, w: seq<Row>, n: nat)
    requires n <= |x| && RightSigns(y, SpeechCodeword(x)) && AllInt8(y) && soft == SpeechDepunctured(y, |x|)
    requires w == MotherTable(soft, |x|)
    ensures FavoursUpTo(w, x, n) && CarryMagnitude(soft, n)
  {
    if n > 0 {
      CleanUpTo(y, x, soft, w, n - 1);
      CleanRow(y, x, soft, w, n - 1, n);
    }
  }

  lemma CleanRow(y: seq<int>, x: seq<bool>, soft: seq<int>, w: seq<Row>, i: nat, j: nat)
    requires j == i + 1 <= |x| && RightSigns(y, SpeechCodeword(x)) && AllInt8(y) && soft == SpeechDepunctured(y, |x|)
    requires w == MotherTable(soft, |x|)
    ensures RowFavours(w, x, i) && CarriesMagnitude(soft, i)
  {
    CleanStep(y, x, i, j);
    DepuncturedAt(y, |x|, i);
    SliceFavours(soft, w, x, |x|, i, Spread(y, i));
  }

  lemma SliceFavours(soft: seq<int>, w: seq<Row>, x: seq<bool>, n: nat, i: nat, rx: seq<int>)
    requires i < n == |x| && 3 * n <= |soft| && w == MotherTable(soft, n) && |rx| == 3 && soft[3 * i..3 * i + 3] == rx
    requires SpeechRow(rx)[RegisterAt(x, i)] == 0 && 1 <= TripleMagnitude(rx) <= STEP_LIMIT
    requires forall sr :: 0 <= sr < 32 ==> 0 <= SpeechRow(rx)[sr] <= STEP_LIMIT
    ensures RowFavours(w, x, i) && CarriesMagnitude(soft, i)
  {
    assert w[i] == SpeechRow(rx);
  }

  lemma NextMagnitude(soft: seq<int>, i: nat, j: nat)
    requires j == i + 1 && 3 * j <= |soft|
    ensures SoftMagnitude(soft, j) == SoftMagnitude(soft, i) + TripleMagnitude(soft[3 * i..3 * i + 3])
  {
  }

  /** Row and magnitude of a step, and what follows it. */
  lemma StepData(soft: seq<int>, x: seq<bool>, w: seq<Row>, i: nat, j: nat, rx: seq<int>)
    requires CleanSoft(soft, x, w) && j == i + 1 <= |x| && rx == soft[3 * i..3 * i + 3]
    ensures w[i] == SpeechRow(rx) && 1 <= TripleMagnitude(rx) <= STEP_LIMIT
    ensures SoftMagnitude(soft, j) == SoftMagnitude(soft, i) + TripleMagnitude(rx)
    ensures Metrics16(soft, j) == Step16(Metrics16(soft, i), rx)
  {
    CarriesAt(soft, |x|, i);
    NextMagnitude(soft, i, j);
    NextMetrics(soft, i, j);
  }

  /** Candidates near the least possible metric do not overflow while the magnitude is at most 2^15. */
  lemma NearFits(p: seq<int>, rx: seq<int>, w: seq<Row>, x: seq<bool>, k: nat, t: nat, magnitude: nat)
    requires |p| == 16 && |rx| == 3 && Favours(w, x) && 4 <= k <= |w| && Exact(p, w, k, magnitude) && t < 16
    requires TripleMagnitude(rx) <= STEP_LIMIT && magnitude + TripleMagnitude(rx) <= 0x8000
    ensures Fits(p, rx, t)
  {
    Predecessors(t, Rev(t));
    MetricsNear(p, w, x, k, magnitude, Rev(t) / 2);
    MetricsNear(p, w, x, k, magnitude, Rev(t) / 2 + 8);
    BranchMetricBound(rx, Rev(t));
  }

  lemma ShortIsInRange(soft: seq<int>, x: seq<bool>, w: seq<Row>, i: nat)
    requires CleanSoft(soft, x, w) && i <= |x| && SoftMagnitude(soft, i) < 0x8000
    ensures InRange(soft, i)
  {
    if i < 4 {
      MagnitudeGrows(soft, i, 4);
    }
  }

  /** 2^15 is not reached in the first four steps. */
  lemma LateEnough(soft: seq<int>, x: seq<bool>, w: seq<Row>, i: nat, j: nat)
    requires CleanSoft(soft, x, w) && j == i + 1 <= |x| && SoftMagnitude(soft, j) >= 0x8000
    ensures i >= 4 && SoftMagnitude(soft, i) < SoftMagnitude(soft, j)
    ensures TripleMagnitude(soft[3 * i..3 * i + 3]) <= STEP_LIMIT
  {
    CarriesAt(soft, |x|, i);
    NextMagnitude(soft, i, j);
    if j <= 4 {
      MagnitudeGrows(soft, j, 4);
    }
  }

  lemma MagnitudeNeedsSteps(soft: seq<int>, i: nat)
    requires 3 * i <= |soft| && SoftMagnitude(soft, i) > 0
    ensures i > 0
  {
  }

  /** Metrics are exact while the magnitude is at most 2^15. */
  lemma CleanMetrics(soft: seq<int>, x: seq<bool>, w: seq<Row>, i: nat)
    requires CleanSoft(soft, x, w) && i <= |x| && SoftMagnitude(soft, i) <= 0x8000
    ensures Exact(Metrics16(soft, i), w, i, SoftMagnitude(soft, i))
  {
    if SoftMagnitude(soft, i) < 0x8000 {
      CleanMetricsBelow(soft, x, w, i);
    } else {
      MagnitudeNeedsSteps(soft, i);
      CleanMetricsAtLimit(soft, x, w, i - 1, i);
    }
  }

  lemma CleanMetricsBelow(soft: seq<int>, x: seq<bool>, w: seq<Row>, i: nat)
    requires CleanSoft(soft, x, w) && i <= |x| && SoftMagnitude(soft, i) < 0x8000
    ensures Exact(Metrics16(soft, i), w, i, SoftMagnitude(soft, i))
  {
    ShortIsInRange(soft, x, w, i);
    MetricsAreExact(soft, |x|, i, i);
  }

  lemma CleanMetricsAtLimit(soft: seq<int>, x: seq<bool>, w: seq<Row>, i: nat, j: nat)
    requires CleanSoft(soft, x, w) && j == i + 1 <= |x| && SoftMagnitude(soft, j) == 0x8000
    ensures Exact(Metrics16(soft, j), w, j, SoftMagnitude(soft, j))
  {
    LateEnough(soft, x, w, i, j);
    CleanMetricsBelow(soft, x, w, i);
    StepData(soft, x, w, i, j, soft[3 * i..3 * i + 3]);
    NearStep(Metrics16(soft, i), Metrics16(soft, j), soft[3 * i..3 * i + 3], w, x, i, j, SoftMagnitude(soft, i),
             SoftMagnitude(soft, j));
  }

  lemma NearStep(p: seq<int>, q: seq<int>, rx: seq<int>, w: seq<Row>, x: seq<bool>, i: nat, j: nat, magnitude: nat,
                 after: nat)
    requires |p| == 16 && |rx| == 3 && Favours(w, x) && 4 <= i && j == i + 1 <= |w| && Exact(p, w, i, magnitude)
    requires w[i] == SpeechRow(rx) && q == Step16(p, rx)
    requires TripleMagnitude(rx) <= STEP_LIMIT && after == magnitude + TripleMagnitude(rx) <= 0x8000
    ensures Exact(q, w, j, after)
  {
    forall t: nat | t < 16
      ensures Fits(p, rx, t)
    {
      NearFits(p, rx, w, x, i, t, magnitude);
    }
    FittingStep(p, q, rx, w, i, j, magnitude, after);
  }

  lemma CleanDecision(soft: seq<int>, x: seq<bool>, w: seq<Row>, i: nat, j: nat, t: nat)
    requires CleanSoft(soft, x, w) && j == i + 1 <= |x| && SoftMagnitude(soft, j) <= 0x8000 && t < 16
    ensures SameDecision(soft, w, i, t)
  {
    if SoftMagnitude(soft, j) < 0x8000 {
      ShortIsInRange(soft, x, w, j);
      DecisionIsExact(soft, w, |x|, j, i, j, t);
    } else {
      DecisionAtLimit(soft, x, w, i, j, t);
    }
  }

  lemma DecisionAtLimit(soft: seq<int>, x: seq<bool>, w: seq<Row>, i: nat, j: nat, t: nat)
    requires CleanSoft(soft, x, w) && j == i + 1 <= |x| && SoftMagnitude(soft, j) == 0x8000 && t < 16
    ensures SameDecision(soft, w, i, t)
  {
    LateEnough(soft, x, w, i, j);
    CleanMetricsBelow(soft, x, w, i);
    StepData(soft, x, w, i, j, soft[3 * i..3 * i + 3]);
    NearDecision(soft, w, x, i, t, SoftMagnitude(soft, i), Metrics16(soft, i), soft[3 * i..3 * i + 3]);
  }

  lemma NearDecision(soft: seq<int>, w: seq<Row>, x: seq<bool>, i: nat, t: nat, magnitude: nat, p: seq<int>, rx: seq<int>)
    requires 4 <= i < |w| && 3 * i + 3 <= |soft| && t < 16 && p == Metrics16(soft, i) && rx == soft[3 * i..3 * i + 3]
    requires w[i] == SpeechRow(rx) && Exact(p, w, i, magnitude) && Favours(w, x)
    requires TripleMagnitude(rx) <= STEP_LIMIT && magnitude + TripleMagnitude(rx) <= 0x8000
    ensures SameDecision(soft, w, i, t)
  {
    NearFits(p, rx, w, x, i, t, magnitude);
    FittingDecision(soft, w, i, t, magnitude, p, rx);
  }

  /** Clean values of total magnitude at most 2^15 are decoded exactly. */
  lemma CleanRight(soft: seq<int>, x: seq<bool>, w: seq<Row>)
    requires CleanSoft(soft, x, w) && SoftMagnitude(soft, |x|) <= 0x8000
    ensures Decode16(soft, |x|) == Trellis.Decode(w)
  {
    CleanDecisions(soft, x, w, |x|);
    SameBits(soft, w);
  }

  lemma {:induction false} CleanDecisions(soft: seq<int>, x: seq<bool>, w: seq<Row>, i: nat)
    requires CleanSoft(soft, x, w) && SoftMagnitude(soft, |x|) <= 0x8000 && i <= |x|
    ensures DecidesAlike(soft, w, i)
    decreases i, 1
  {
    if i > 0 {
      LongerCleanDecisions(soft, x, w, i - 1, i);
    }
  }

  lemma {:induction false} LongerCleanDecisions(soft: seq<int>, x: seq<bool>, w: seq<Row>, i: nat, j: nat)
    requires CleanSoft(soft, x, w) && SoftMagnitude(soft, |x|) <= 0x8000 && j == i + 1 <= |x|
    ensures DecidesAlike(soft, w, j)
    decreases j, 0
  {
    CleanDecisions(soft, x, w, i);
    CleanStepDecisions(soft, x, w, i, j);
  }

  lemma CleanStepDecisions(soft: seq<int>, x: seq<bool>, w: seq<Row>, i: nat, j: nat)
    requires CleanSoft(soft, x, w) && j == i + 1 <= |x| && SoftMagnitude(soft, |x|) <= 0x8000
    ensures SameStep(soft, w, i)
  {
    MagnitudeGrows(soft, j, |x|);
    forall t: nat | t < 16
      ensures SameDecision(soft, w, i, t)
    {
      CleanDecision(soft, x, w, i, j, t);
    }
  }

  /** The step in which the received magnitude passes 2^15. */
  lemma {:induction false} FindPassage(soft: seq<int>, n: nat) returns (k: nat, next: nat)
    requires 3 * n <= |soft| && SoftMagnitude(soft, n) > 0x8000
    ensures next == k + 1 <= n && SoftMagnitude(soft, k) <= 0x8000 < SoftMagnitude(soft, next)
  {
    k, next := n - 1, n;
    if SoftMagnitude(soft, k) > 0x8000 {
      k, next := FindPassage(soft, k);
    }
  }

  lemma WrongTurn(soft: seq<int>, x: seq<bool>, w: seq<Row>, k: nat, next: nat)
    requires CleanSoft(soft, x, w) && 4 <= k && next == k + 1 <= |x|
    requires SoftMagnitude(soft, k) <= 0x8000 < SoftMagnitude(soft, next)
    ensures Previous16(soft, k, Rev(StateAfter(x[..next]))) != Rev(StateAfter(x[..k]))
  {
    CleanMetrics(soft, x, w, k);
    StepData(soft, x, w, k, next, soft[3 * k..3 * k + 3]);
    StateStep(x, k, next);
    var p, rx, t := Metrics16(soft, k), soft[3 * k..3 * k + 3], Rev(StateAfter(x[..next]));
    RevTwice(StateAfter(x[..next]));
    WrongDecision(p, rx, w, x, k, next, SoftMagnitude(soft, k), t);
    DecisionLeaves(soft, k, p, rx, t, StateAfter(x[..k]));
  }

  /** Clean values of a greater total magnitude are not decoded to what was sent. */
  lemma CleanWrong(soft: seq<int>, x: seq<bool>, w: seq<Row>)
    requires CleanSoft(soft, x, w) && SoftMagnitude(soft, |x|) > 0x8000
    ensures Decode16(soft, |x|) != x
  {
    var k, next := FindPassage(soft, |x|);
    TurnsAway(soft, x, w, k, next);
  }

  lemma TurnsAway(soft: seq<int>, x: seq<bool>, w: seq<Row>, k: nat, next: nat)
    requires CleanSoft(soft, x, w) && next == k + 1 <= |x| && SoftMagnitude(soft, k) <= 0x8000 < SoftMagnitude(soft, next)
    ensures Decode16(soft, |x|) != x
  {
    LateEnough(soft, x, w, k, next);
    WrongTurn(soft, x, w, k, next);
    LeavesPath(soft, x, k, next);
  }

  lemma {:induction false} NoneWeak(y: seq<int>, c: seq<bool>)
    requires RightSigns(y, c)
    ensures WeakCount(y, c, 1) == 0
  {
    if |y| > 0 {
      var n := |y| - 1;
      assert RightSign(y[n], c[n]);
      NoneWeak(y[..n], c[..n]);
    }
  }

  lemma AllStrong(y: seq<int>, c: seq<bool>)
    requires RightSigns(y, c)
    ensures WeakAtMost(y, c, 1, 0)
  {
    forall j | 0 <= j < |y|
      ensures Strong(c[j], y[j], 1)
    {
      assert RightSign(y[j], c[j]);
    }
  }

  lemma UnitCorrects(y: seq<int>, x: seq<bool>, m: nat, most: nat, f: nat)
    requires |x| >= CLASS1_BITS && Terminated(x) && |y| == Offset(|x|) && WeakAtMost(y, SpeechCodeword(x), m, most) && m > 0
    requires f == WeakCount(y, SpeechCodeword(x), m) == 0
    ensures SpeechDecoded(y, |x|) == x
  {
    assert (m + most) * f == 0;
    SpeechSoftCorrects(y, x, m, most);
  }

  /** Exact arithmetic decodes every clean burst. */
  lemma CleanExact(y: seq<int>, x: seq<bool>)
    requires |x| >= CLASS1_BITS && Terminated(x) && RightSigns(y, SpeechCodeword(x))
    ensures SpeechDecoded(y, |x|) == x
  {
    NoneWeak(y, SpeechCodeword(x));
    AllStrong(y, SpeechCodeword(x));
    UnitCorrects(y, x, 1, 0, WeakCount(y, SpeechCodeword(x), 1));
  }

  /**
   * A clean burst of any sent bits and any magnitudes is decoded to them if and only if its
   * magnitudes add up to at most 2^15.
   */
  lemma CleanBurst(y: seq<int>, x: seq<bool>)
    requires |y| == CODED_BITS && AllInt8(y) && |x| == STEPS && Terminated(x) && RightSigns(y, SpeechCodeword(x))
    ensures Steps16(y) == x <==> Magnitude(y, CODED_BITS) <= 0x8000
  {
    CodedLengths(|x|);
    CleanSteps(y, x, SpeechDepunctured(y, |x|));
  }

  lemma CleanSteps(y: seq<int>, x: seq<bool>, soft: seq<int>)
    requires |x| >= CLASS1_BITS && Terminated(x) && RightSigns(y, SpeechCodeword(x)) && AllInt8(y)
    requires soft == SpeechDepunctured(y, |x|)
    ensures Decode16(soft, |x|) == x <==> Magnitude(y, Offset(|x|)) <= 0x8000
  {
    CleanIsCleanSoft(y, x, soft);
    CleanExact(y, x);
    MotherTableIsSpeechTable(y, |x|);
    DepuncturedMagnitude(y, |x|, |x|);
    if SoftMagnitude(soft, |x|) <= 0x8000 {
      CleanRight(soft, x, MotherTable(soft, |x|));
    } else {
      CleanWrong(soft, x, MotherTable(soft, |x|));
    }
  }

  // ---- Bursts of one magnitude ----

  lemma {:induction false} ConstantMagnitude(y: seq<int>, c: nat, k: nat)
    requires k <= |y| && forall j :: 0 <= j < |y| ==> Abs(y[j]) == c
    ensures Magnitude(y, k) == c * k
  {
    if k > 0 {
      ConstantMagnitude(y, c, k - 1);
      NextMultiple(c, k - 1, k);
    }
  }

  lemma NextMultiple(c: nat, k: nat, n: nat)
    requires n == k + 1
    ensures c * n == c * k + c
  {
  }

  /** Any sent bits received with one magnitude are restored if and only if it is at most 99. */
  lemma OneMagnitude(x: seq<bool>, y: seq<int>, c: nat)
    requires |x| == STEPS && Terminated(x) && 0 < c < 128 && |y| == CODED_BITS == |SpeechCodeword(x)|
    requires y == SoftBits(SpeechCodeword(x), c)
    ensures DecodedSteps(y) == x && (Steps16(y) == x <==> c <= LARGEST_EXACT)
  {
    ConstantMagnitude(y, c, CODED_BITS);
    CleanBurst(y, x);
    CleanExact(y, x);
  }

  lemma CodedZeros() returns (x: seq<bool>)
    ensures |x| == STEPS && Terminated(x) && |SpeechCodeword(x)| == CODED_BITS
  {
    x := Zeros(STEPS);
    ZerosStayInZero(STEPS);
    CodedLengths(STEPS);
  }

  lemma SoftBitsAreSmall(coded: seq<bool>, c: nat, bound: nat)
    requires c < 128 && c <= bound
    ensures Small(SoftBits(coded, c), bound)
  {
  }

  /** From magnitude 100 on there are coded bits that the 16-bit decoder gets wrong and the hard decoder right. */
  lemma CleanGoesWrong(c: nat) returns (coded: seq<bool>)
    requires LARGEST_EXACT < c < 128
    ensures |coded| == CODED_BITS
    ensures Steps16(SoftBits(coded, c)) != DecodedSteps(SoftBits(coded, c)) == DecodedSteps(SoftBits(coded, 1))
  {
    var x := CodedZeros();
    coded := SpeechCodeword(x);
    WrongAbove(x, SoftBits(coded, c), c);
    SpeechSoftRefinesHard(coded, c);
  }

  lemma WrongAbove(x: seq<bool>, y: seq<int>, c: nat)
    requires |x| == STEPS && Terminated(x) && LARGEST_EXACT < c < 128 && |y| == CODED_BITS == |SpeechCodeword(x)|
    requires y == SoftBits(SpeechCodeword(x), c)
    ensures Steps16(y) != DecodedSteps(y)
  {
    OneMagnitude(x, y, c);
  }

  // ---- The exact range ----

  /** The 16-bit decoder is the exact one on all bursts of magnitude at most bound. */
  ghost predicate ExactUpTo(bound: nat) {
    forall y: seq<int> :: |y| == CODED_BITS && Small(y, bound) ==> Steps16(y) == DecodedSteps(y)
  }

  /** The largest magnitude that the 16-bit decoder always handles exactly is 99. */
  lemma ExactIffAtMost99(bound: nat)
    ensures ExactUpTo(bound) <==> bound <= LARGEST_EXACT
  {
    if bound <= LARGEST_EXACT {
      forall y: seq<int> | |y| == CODED_BITS && Small(y, bound)
        ensures Steps16(y) == DecodedSteps(y)
      {
        SmallIsExact(y, bound);
      }
    } else {
      var coded := CleanGoesWrong(LARGEST_EXACT + 1);
      SoftBitsAreSmall(coded, LARGEST_EXACT + 1, bound);
    }
  }

  /** At magnitude c the 16-bit decoder makes of all coded bits what the hard decoder does. */
  ghost predicate AgreesWithHard(c: nat) {
    forall coded: seq<bool> :: |coded| == CODED_BITS ==> Steps16(SoftBits(coded, c)) == DecodedSteps(SoftBits(coded, 1))
  }

  lemma AgreesIffAtMost99(c: nat)
    requires 0 < c < 128
    ensures AgreesWithHard(c) <==> c <= LARGEST_EXACT
  {
    if c <= LARGEST_EXACT {
      forall coded: seq<bool> | |coded| == CODED_BITS
        ensures Steps16(SoftBits(coded, c)) == DecodedSteps(SoftBits(coded, 1))
      {
        SmallIsExact(SoftBits(coded, c), c);
        SpeechSoftRefinesHard(coded, c);
      }
    } else {
      var coded := CleanGoesWrong(c);
    }
  }
}
