/**
 * The speech decoder's Viterbi with 16-bit path metrics that wrap around, states read with the
 * newest bit on top, correlation metrics, and a finite start metric for states not yet reached.
 */
module SpeechViterbi {
  import opened Wrappers
  import opened BitSeq
  import opened Trellis
  import opened ConvCode
  import opened BranchMetrics
  import opened SpeechCode
  import opened SpeechMetrics
  import opened Viterbi

  /** INT16_MAX / 2. */
  const START: int := 16383

  /** Storing a value in an int16_t. */
  function Int16(x: int): int {
    (x + 0x8000) % 0x1_0000 - 0x8000
  }

  lemma Int16Fits(x: int)
    requires -0x8000 <= x < 0x8000
    ensures Int16(x) == x
  {
  }

  // ---- State labels ----

  /** The four state bits in opposite order. */
  function Rev(t: nat): (s: nat)
    requires t < 16
    ensures s < 16
  {
    match t
    case 0 => 0 case 1 => 8 case 2 => 4 case 3 => 12
    case 4 => 2 case 5 => 10 case 6 => 6 case 7 => 14
    case 8 => 1 case 9 => 9 case 10 => 5 case 11 => 13
    case 12 => 3 case 13 => 11 case 14 => 7 case _ => 15
  }

  lemma RevTwice(t: nat)
    requires t < 16
    ensures Rev(Rev(t)) == t && (t / 8 == 1) == (Rev(t) % 2 == 1)
  {
    match t
    case 0 => case 1 => case 2 => case 3 => case 4 => case 5 => case 6 => case 7 =>
    case 8 => case 9 => case 10 => case 11 => case 12 => case 13 => case 14 => case _ =>
  }

  /** Reversal turns the decoder's predecessors 2t and 2t + 1 into s / 2 and s / 2 + 8. */
  lemma RevStep(t: nat)
    requires t < 16
    ensures Rev((2 * t) % 16) == Rev(t) / 2 && Rev((2 * t) % 16 + 1) == Rev(t) / 2 + 8
  {
    match t
    case 0 => case 1 => case 2 => case 3 => case 4 => case 5 => case 6 => case 7 =>
    case 8 => case 9 => case 10 => case 11 => case 12 => case 13 => case 14 => case _ =>
  }

  // ---- Expected outputs ----

  /** Sign of a bit as a soft value. */
  function Sign(b: bool): int {
    if b then 1 else -1
  }

  /** Generator n as the source's five flags, newest tap first. */
  function Poly(n: nat): (p: seq<bool>)
    requires n < 3
    ensures |p| == 5
  {
    match n
    case 0 => [true, true, true, true, true]
    case 1 => [true, true, false, true, true]
    case _ => [true, false, true, false, true]
  }

  /** State bit seen by tap bi: state & (1 << (3 - bi)). */
  predicate PastBit(state: nat, bi: nat)
    requires state < 16 && bi < 4
  {
    match bi
    case 0 => state / 8 == 1
    case 1 => (state / 4) % 2 == 1
    case 2 => (state / 2) % 2 == 1
    case _ => state % 2 == 1
  }

  /** Exclusive or of the flagged state bits among the first k taps. */
  predicate TapsXor(n: nat, state: nat, k: nat)
    requires n < 3 && state < 16 && k <= 4
  {
    if k == 0 then false
    else TapsXor(n, state, k - 1) != (PastBit(state, k - 1) && Poly(n)[k - 1])
  }

  lemma FourTaps(n: nat, state: nat)
    requires n < 3 && state < 16
    ensures TapsXor(n, state, 4) ==
            ((((PastBit(state, 0) && Poly(n)[0]) != (PastBit(state, 1) && Poly(n)[1]))
              != (PastBit(state, 2) && Poly(n)[2])) != (PastBit(state, 3) && Poly(n)[3]))
  {
    assert TapsXor(n, state, 1) == (PastBit(state, 0) && Poly(n)[0]);
    assert TapsXor(n, state, 2) == (TapsXor(n, state, 1) != (PastBit(state, 1) && Poly(n)[1]));
  }

  lemma TapsAreOutputs0(t: nat)
    requires t < 16
    ensures TapsXor(0, t, 4) == SpeechOutputs(Rev(t))[0]
  {
    FourTaps(0, t);
    match t
    case 0 => case 1 => case 2 => case 3 => case 4 => case 5 => case 6 => case 7 =>
    case 8 => case 9 => case 10 => case 11 => case 12 => case 13 => case 14 => case _ =>
  }

  lemma TapsAreOutputs1(t: nat)
    requires t < 16
    ensures TapsXor(1, t, 4) == SpeechOutputs(Rev(t))[1]
  {
    FourTaps(1, t);
    match t
    case 0 => case 1 => case 2 => case 3 => case 4 => case 5 => case 6 => case 7 =>
    case 8 => case 9 => case 10 => case 11 => case 12 => case 13 => case 14 => case _ =>
  }

  lemma TapsAreOutputs2(t: nat)
    requires t < 16
    ensures TapsXor(2, t, 4) == SpeechOutputs(Rev(t))[2]
  {
    FourTaps(2, t);
    match t
    case 0 => case 1 => case 2 => case 3 => case 4 => case 5 => case 6 => case 7 =>
    case 8 => case 9 => case 10 => case 11 => case 12 => case 13 => case 14 => case _ =>
  }

  /** The table entry is the output for a register whose oldest bit is 0. */
  lemma TapsAreOutputs(n: nat, t: nat)
    requires n < 3 && t < 16
    ensures TapsXor(n, t, 4) == SpeechOutputs(Rev(t))[n]
  {
    if n == 0 {
      TapsAreOutputs0(t);
    } else if n == 1 {
      TapsAreOutputs1(t);
    } else {
      TapsAreOutputs2(t);
    }
  }

  /** Every generator has the oldest tap, so setting the oldest bit inverts all outputs. */
  lemma OldestBitInverts(s: nat, n: nat)
    requires s < 16 && n < 3
    ensures SpeechOutputs(s + 16)[n] == !SpeechOutputs(s)[n]
  {
    match s
    case 0 => case 1 => case 2 => case 3 => case 4 => case 5 => case 6 => case 7 =>
    case 8 => case 9 => case 10 => case 11 => case 12 => case 13 => case 14 => case _ =>
  }

  /** Sign of generator n's output for a state, from the flags of the generator. */
  method ExpectedSign(n: nat, state: nat) returns (e: int)
    requires n < 3 && state < 16
    ensures e == Sign(SpeechOutputs(Rev(state))[n])
  {
    var out := false;
    for bi := 0 to 4
      invariant out == TapsXor(n, state, bi)
    {
      if PastBit(state, bi) && Poly(n)[bi] {
        out := !out;
      }
    }
    TapsAreOutputs(n, state);
    e := if out then 1 else -1;
  }

  /** The table of expected signs, one row per generator, indexed by state. */
  ghost predicate ExpectedTable(expected: seq<seq<int>>) {
    && |expected| == 3
    && forall n :: 0 <= n < 3 ==> |expected[n]| == 16
                                  && forall t :: 0 <= t < 16 ==> expected[n][t] == Sign(SpeechOutputs(Rev(t))[n])
  }

  method ExpectedRow(n: nat) returns (row: seq<int>)
    requires n < 3
    ensures |row| == 16 && forall t :: 0 <= t < 16 ==> row[t] == Sign(SpeechOutputs(Rev(t))[n])
  {
    row := [];
    for state := 0 to 16
      invariant |row| == state && forall t :: 0 <= t < state ==> row[t] == Sign(SpeechOutputs(Rev(t))[n])
    {
      var e := ExpectedSign(n, state);
      row := row + [e];
    }
  }

  method BuildExpected() returns (expected: seq<seq<int>>)
    ensures ExpectedTable(expected)
  {
    var r0 := ExpectedRow(0);
    var r1 := ExpectedRow(1);
    var r2 := ExpectedRow(2);
    expected := [r0, r1, r2];
  }

  // ---- Branch metrics ----

  function TripleMagnitude(rx: seq<int>): nat
    requires |rx| == 3
  {
    Abs(rx[0]) + Abs(rx[1]) + Abs(rx[2])
  }

  /** Negated correlation of one value with a bit: twice the penalty less the magnitude. */
  lemma NegatedCorrelation(e: bool, s: int)
    ensures -(s * Sign(e)) == 2 * SoftPenalty(e, s) - Abs(s)
    ensures s * Sign(e) == 2 * SoftPenalty(!e, s) - Abs(s)
  {
  }

  /** Branch metric of register value sr: negated correlation with its outputs. */
  function BranchMetric(rx: seq<int>, sr: nat): int
    requires |rx| == 3 && sr < 32
  {
    2 * SpeechRow(rx)[sr] - TripleMagnitude(rx)
  }

  lemma PenaltyBelow(e: seq<bool>, rx: seq<int>)
    requires |e| == |rx| == 3
    ensures 0 <= SpeechMetric(e, rx) <= TripleMagnitude(rx)
  {
  }

  /** The "1" branch into a state costs the negation of the "0" branch. */
  lemma HighBranchIsNegated(rx: seq<int>, s: nat)
    requires |rx| == 3 && s < 16
    ensures BranchMetric(rx, s + 16) == -BranchMetric(rx, s)
  {
    OldestBitInverts(s, 0);
    OldestBitInverts(s, 1);
    OldestBitInverts(s, 2);
    InvertedPenalty(SpeechOutputs(s), SpeechOutputs(s + 16), rx);
  }

  lemma InvertedPenalty(e: seq<bool>, f: seq<bool>, rx: seq<int>)
    requires |e| == |f| == |rx| == 3 && f[0] == !e[0] && f[1] == !e[1] && f[2] == !e[2]
    ensures SpeechMetric(e, rx) + SpeechMetric(f, rx) == TripleMagnitude(rx)
  {
  }

  // ---- Tables ----

  /** The decoder's trellis for n groups of three mother values. */
  function MotherTable(soft: seq<int>, n: nat): (w: seq<Row>)
    requires 3 * n <= |soft|
    ensures |w| == n
  {
    seq(n, i requires 0 <= i < n => SpeechRow(soft[3 * i..3 * i + 3]))
  }

  lemma {:induction false} DepuncturedAt(y: seq<int>, n: nat, i: nat)
    requires Offset(n) <= |y| && i < n
    ensures Offset(i + 1) <= |y| && SpeechDepunctured(y, n)[3 * i..3 * i + 3] == Spread(y, i)
  {
    OffsetMonotone(i + 1, n);
    OffsetMonotone(n - 1, n);
    DepuncturedLast(y, n);
    if i < n - 1 {
      DepuncturedAt(y, n - 1, i);
      SliceOfPrefix(SpeechDepunctured(y, n - 1), Spread(y, n - 1), 3 * i);
    } else {
      LastThree(SpeechDepunctured(y, i), Spread(y, i), 3 * i);
    }
  }

  lemma DepuncturedLast(y: seq<int>, n: nat)
    requires n > 0 && Offset(n) <= |y| && Offset(n - 1) <= |y|
    ensures SpeechDepunctured(y, n) == SpeechDepunctured(y, n - 1) + Spread(y, n - 1)
  {
  }

  lemma SliceOfPrefix<T>(m: seq<T>, r: seq<T>, k: nat)
    requires k + 3 <= |m|
    ensures (m + r)[k..k + 3] == m[k..k + 3]
  {
  }

  lemma LastThree<T>(m: seq<T>, r: seq<T>, k: nat)
    requires |m| == k && |r| == 3
    ensures (m + r)[k..k + 3] == r
  {
  }

  /** Depuncturing and then decoding is decoding of the received values. */
  lemma MotherTableIsSpeechTable(y: seq<int>, n: nat)
    requires Offset(n) <= |y|
    ensures MotherTable(SpeechDepunctured(y, n), n) == SpeechTable(y, n)
  {
    forall i | 0 <= i < n
      ensures MotherTable(SpeechDepunctured(y, n), n)[i] == SpeechTable(y, n)[i]
    {
      DepuncturedAt(y, n, i);
      SpeechTableAt(y, n, i);
    }
  }

  function SoftMagnitude(soft: seq<int>, i: nat): nat
    requires 3 * i <= |soft|
  {
    if i == 0 then 0 else SoftMagnitude(soft, i - 1) + TripleMagnitude(soft[3 * i - 3..3 * i])
  }

  // ---- The 16-bit decoder as a function ----

  /** Metric of state t by way of an oldest bit 0. */
  function Low16(p: seq<int>, rx: seq<int>, t: nat): int
    requires |p| == 16 && |rx| == 3 && t < 16
  {
    Int16(p[(2 * t) % 16] + BranchMetric(rx, Rev(t)))
  }

  /** Metric of state t by way of an oldest bit 1, whose branch metric is the negated one. */
  function High16(p: seq<int>, rx: seq<int>, t: nat): int
    requires |p| == 16 && |rx| == 3 && t < 16
  {
    Int16(p[(2 * t) % 16 + 1] - BranchMetric(rx, Rev(t)))
  }

  function Step16(p: seq<int>, rx: seq<int>): (m: seq<int>)
    requires |p| == 16 && |rx| == 3
    ensures |m| == 16
  {
    seq(16, t requires 0 <= t < 16 => if High16(p, rx, t) < Low16(p, rx, t) then High16(p, rx, t) else Low16(p, rx, t))
  }

  /** The metrics of all states after i steps. */
  function Metrics16(soft: seq<int>, i: nat): (m: seq<int>)
    requires 3 * i <= |soft|
    ensures |m| == 16
  {
    if i == 0 then seq(16, t => if t == 0 then 0 else START)
    else Step16(Metrics16(soft, i - 1), soft[3 * (i - 1)..3 * (i - 1) + 3])
  }

  /** The decision bit of state t in step i. */
  predicate TakesHigh16(soft: seq<int>, i: nat, t: nat)
    requires 3 * i + 3 <= |soft| && t < 16
  {
    var p, rx := Metrics16(soft, i), soft[3 * i..3 * i + 3];
    High16(p, rx, t) < Low16(p, rx, t)
  }

  function Previous16(soft: seq<int>, i: nat, t: nat): (u: nat)
    requires 3 * i + 3 <= |soft| && t < 16
    ensures u < 16
  {
    (2 * t) % 16 + if TakesHigh16(soft, i, t) then 1 else 0
  }

  /** Traceback of i steps from state t. */
  function Trace16(soft: seq<int>, i: nat, t: nat): (x: seq<bool>)
    requires 3 * i <= |soft| && t < 16
    ensures |x| == i
  {
    if i == 0 then [] else Trace16(soft, i - 1, Previous16(soft, i - 1, t)) + [t / 8 == 1]
  }

  /** The bits that the 16-bit decoder makes of n groups of three mother values. */
  function Decode16(soft: seq<int>, n: nat): (x: seq<bool>)
    requires 3 * n <= |soft|
    ensures |x| == n
  {
    Trace16(soft, n, 0)
  }

  // ---- The loops ----

  /** Negated correlation with the first n generators' outputs for oldest bit 0. */
  function PartialBranch(rx: seq<int>, s: nat, n: nat): int
    requires |rx| == 3 && s < 16 && n <= 3
  {
    if n == 0 then 0 else PartialBranch(rx, s, n - 1) - rx[n - 1] * Sign(SpeechOutputs(s)[n - 1])
  }

  predicate IsInt8(x: int) {
    -128 <= x < 128
  }

  lemma {:induction false} PartialBranchFits(rx: seq<int>, s: nat, n: nat)
    requires |rx| == 3 && s < 16 && n <= 3 && IsInt8(rx[0]) && IsInt8(rx[1]) && IsInt8(rx[2])
    ensures -128 * n <= PartialBranch(rx, s, n) <= 128 * n
  {
    if n > 0 {
      PartialBranchFits(rx, s, n - 1);
    }
  }

  lemma PartialBranchIsMetric(rx: seq<int>, s: nat)
    requires |rx| == 3 && s < 16
    ensures PartialBranch(rx, s, 3) == BranchMetric(rx, s)
  {
    var e := SpeechOutputs(s);
    NegatedCorrelation(e[0], rx[0]);
    NegatedCorrelation(e[1], rx[1]);
    NegatedCorrelation(e[2], rx[2]);
    ThreeTerms(rx, s);
    AddThree(rx[0] * Sign(e[0]), Abs(rx[0]), SoftPenalty(e[0], rx[0]), rx[1] * Sign(e[1]), Abs(rx[1]),
             SoftPenalty(e[1], rx[1]), rx[2] * Sign(e[2]), Abs(rx[2]), SoftPenalty(e[2], rx[2]));
  }

  lemma AddThree(c0: int, m0: int, p0: int, c1: int, m1: int, p1: int, c2: int, m2: int, p2: int)
    requires -c0 == 2 * p0 - m0 && -c1 == 2 * p1 - m1 && -c2 == 2 * p2 - m2
    ensures -c0 - c1 - c2 == 2 * (p0 + p1 + p2) - (m0 + m1 + m2)
  {
  }

  lemma ThreeTerms(rx: seq<int>, s: nat)
    requires |rx| == 3 && s < 16
    ensures var e := SpeechOutputs(s);
            PartialBranch(rx, s, 3) == -(rx[0] * Sign(e[0])) - rx[1] * Sign(e[1]) - rx[2] * Sign(e[2])
  {
    assert PartialBranch(rx, s, 2) == PartialBranch(rx, s, 1) - rx[1] * Sign(SpeechOutputs(s)[1]);
  }

  /** branch_metric_0 of all states for one step. */
  method StateBranchMetrics(expected: seq<seq<int>>, rx: seq<int>, bm: array<int>)
    requires ExpectedTable(expected) && bm.Length == 16
    requires |rx| == 3 && IsInt8(rx[0]) && IsInt8(rx[1]) && IsInt8(rx[2])
    modifies bm
    ensures forall t :: 0 <= t < 16 ==> bm[t] == BranchMetric(rx, Rev(t))
  {
    for s := 0 to 16
      invariant forall t :: 0 <= t < s ==> bm[t] == 0
    {
      bm[s] := 0;
    }
    for n := 0 to 3
      invariant forall t :: 0 <= t < 16 ==> bm[t] == PartialBranch(rx, Rev(t), n)
    {
      var recv := rx[n];
      for s := 0 to 16
        invariant forall t :: 0 <= t < s ==> bm[t] == PartialBranch(rx, Rev(t), n + 1)
        invariant forall t :: s <= t < 16 ==> bm[t] == PartialBranch(rx, Rev(t), n)
      {
        bm[s] := SubtractProduct(bm[s], recv, expected[n][s], rx, Rev(s), n);
      }
    }
    forall t | 0 <= t < 16
      ensures bm[t] == BranchMetric(rx, Rev(t))
    {
      PartialBranchIsMetric(rx, Rev(t));
    }
  }

  /** One 16-bit update of a branch metric. */
  method SubtractProduct(b: int, recv: int, e: int, ghost rx: seq<int>, ghost s: nat, ghost n: nat) returns (r: int)
    requires |rx| == 3 && IsInt8(rx[0]) && IsInt8(rx[1]) && IsInt8(rx[2]) && s < 16 && n < 3
    requires b == PartialBranch(rx, s, n) && recv == rx[n] && e == Sign(SpeechOutputs(s)[n])
    ensures r == PartialBranch(rx, s, n + 1)
  {
    r := Int16(b - recv * e);
    PartialBranchFits(rx, s, n + 1);
    Int16Fits(b - recv * e);
  }

  ghost predicate AllInt8(soft: seq<int>) {
    forall i :: 0 <= i < |soft| ==> IsInt8(soft[i])
  }

  /** Add, compare and select for all 16 states; returns the decision word. */
  method SpeechStep(rx: seq<int>, bm: array<int>, metrics: array<int>, metricsNew: array<int>) returns (decisions: seq<bool>)
    requires |rx| == 3 && bm.Length == metrics.Length == metricsNew.Length == 16
    requires metricsNew != metrics && metricsNew != bm
    requires forall t :: 0 <= t < 16 ==> bm[t] == BranchMetric(rx, Rev(t))
    modifies metricsNew
    ensures metricsNew[..] == Step16(metrics[..], rx)
    ensures |decisions| == 16
    ensures forall t :: 0 <= t < 16 ==> decisions[t] == (High16(metrics[..], rx, t) < Low16(metrics[..], rx, t))
  {
    decisions := [];
    ghost var p, after := metrics[..], Step16(metrics[..], rx);
    for state := 0 to 16
      invariant metrics[..] == p && |decisions| == state
      invariant forall t :: 0 <= t < state ==> metricsNew[t] == after[t] && decisions[t] == (High16(p, rx, t) < Low16(p, rx, t))
    {
      var pred0 := (2 * state) % 16;
      var m, d := Choose(p, rx, state, metrics[pred0], metrics[pred0 + 1], bm[state]);
      metricsNew[state] := m;
      decisions := decisions + [d];
    }
  }

  /** Add, compare and select for one state, in 16-bit arithmetic. */
  method Choose(ghost p: seq<int>, ghost rx: seq<int>, ghost t: nat, p0: int, p1: int, b: int) returns (m: int, d: bool)
    requires |p| == 16 && |rx| == 3 && t < 16
    requires p0 == p[(2 * t) % 16] && p1 == p[(2 * t) % 16 + 1] && b == BranchMetric(rx, Rev(t))
    ensures m == Step16(p, rx)[t] && d == (High16(p, rx, t) < Low16(p, rx, t))
  {
    var m0, m1 := Int16(p0 + b), Int16(p1 - b);
    if m1 < m0 {
      m, d := m1, true;
    } else {
      m, d := m0, false;
    }
  }

  /** The decision words of the first n steps. */
  ghost predicate HoldsDecisions(trellis: array<seq<bool>>, soft: seq<int>, n: nat)
    requires n <= trellis.Length && 3 * n <= |soft|
    reads trellis
  {
    forall i :: 0 <= i < n ==> IsDecisionWord(trellis[i], soft, i)
  }

  ghost predicate IsDecisionWord(decisions: seq<bool>, soft: seq<int>, i: nat)
    requires 3 * i + 3 <= |soft|
  {
    |decisions| == 16 && forall t :: 0 <= t < 16 ==> decisions[t] == TakesHigh16(soft, i, t)
  }

  /** The speech decoder, on all 8-bit values, wrap-around of its metrics included. */
  method ViterbiSpeech(soft: seq<int>, n: nat, out: array<bool>)
    requires 3 * n <= |soft| && out.Length >= n && AllInt8(soft)
    modifies out
    ensures out[..n] == Decode16(soft, n)
    ensures out[n..] == old(out[n..])
  {
    var trellis := SpeechForward(soft, n);
    ReadBack(soft, n, trellis, out);
  }

  /** The forward pass: decision words of all steps. */
  method SpeechForward(soft: seq<int>, n: nat) returns (trellis: array<seq<bool>>)
    requires 3 * n <= |soft| && AllInt8(soft)
    ensures fresh(trellis) && trellis.Length == n && HoldsDecisions(trellis, soft, n)
  {
    var expected := BuildExpected();
    var metrics := StartMetrics16(soft);
    trellis := new seq<bool>[n];
    for step := 0 to n
      invariant metrics.Length == 16 && metrics[..] == Metrics16(soft, step)
      invariant HoldsDecisions(trellis, soft, step)
    {
      metrics := SpeechRound(soft, step, expected, metrics, trellis);
    }
  }

  /** One round of the decoder's main loop. */
  method SpeechRound(soft: seq<int>, step: nat, expected: seq<seq<int>>, metrics: array<int>, trellis: array<seq<bool>>)
    returns (metricsNew: array<int>)
    requires 3 * step + 3 <= |soft| && step < trellis.Length && AllInt8(soft) && ExpectedTable(expected)
    requires metrics.Length == 16 && metrics[..] == Metrics16(soft, step) && HoldsDecisions(trellis, soft, step)
    modifies trellis
    ensures fresh(metricsNew) && metricsNew.Length == 16 && metricsNew[..] == Metrics16(soft, step + 1)
    ensures HoldsDecisions(trellis, soft, step + 1)
  {
    var rx := soft[3 * step..3 * step + 3];
    var bm := new int[16];
    StateBranchMetrics(expected, rx, bm);
    metricsNew := new int[16];
    var decisions := SpeechStep(rx, bm, metrics, metricsNew);
    NextMetrics(soft, step, step + 1);
    Decided(decisions, soft, step, rx, metrics[..]);
    trellis[step] := decisions;
  }

  lemma NextMetrics(soft: seq<int>, i: nat, n: nat)
    requires n == i + 1 && 3 * n <= |soft|
    ensures Metrics16(soft, n) == Step16(Metrics16(soft, i), soft[3 * i..3 * i + 3])
  {
  }

  lemma Decided(decisions: seq<bool>, soft: seq<int>, i: nat, rx: seq<int>, p: seq<int>)
    requires 3 * i + 3 <= |soft| && rx == soft[3 * i..3 * i + 3] && p == Metrics16(soft, i) && |decisions| == 16
    requires forall t :: 0 <= t < 16 ==> decisions[t] == (High16(p, rx, t) < Low16(p, rx, t))
    ensures IsDecisionWord(decisions, soft, i)
  {
  }

  method StartMetrics16(ghost soft: seq<int>) returns (metrics: array<int>)
    ensures fresh(metrics) && metrics.Length == 16 && metrics[..] == Metrics16(soft, 0)
  {
    metrics := new int[16];
    for s := 0 to 16
      invariant forall t :: 0 <= t < s ==> metrics[t] == START
    {
      metrics[s] := START;
    }
    metrics[0] := 0;
  }

  /** Traceback from state 0 through the decision bits. */
  method ReadBack(ghost soft: seq<int>, n: nat, trellis: array<seq<bool>>, out: array<bool>)
    requires n == trellis.Length && out.Length >= n && 3 * n <= |soft| && HoldsDecisions(trellis, soft, n)
    modifies out
    ensures out[..n] == Decode16(soft, n)
    ensures out[n..] == old(out[n..])
  {
    var state := 0;
    var step := n;
    while step > 0
      invariant 0 <= step <= n && 0 <= state < 16
      invariant Decode16(soft, n) == Trace16(soft, step, state) + out[step..n]
      invariant out[n..] == old(out[n..])
    {
      step := step - 1;
      TraceStep(soft, step, step + 1, state, out[step + 1..n]);
      state := StepBack(soft, step, state, trellis, out, n);
    }
  }

  lemma TraceStep(soft: seq<int>, i: nat, n: nat, t: nat, tail: seq<bool>)
    requires n == i + 1 && 3 * n <= |soft| && t < 16
    ensures Trace16(soft, n, t) + tail == Trace16(soft, i, Previous16(soft, i, t)) + ([t / 8 == 1] + tail)
  {
    TraceExtends(soft, i, n, t);
    Regroup(Trace16(soft, i, Previous16(soft, i, t)), [t / 8 == 1], tail);
  }

  lemma TraceExtends(soft: seq<int>, i: nat, n: nat, t: nat)
    requires n == i + 1 && 3 * n <= |soft| && t < 16
    ensures Trace16(soft, n, t) == Trace16(soft, i, Previous16(soft, i, t)) + [t / 8 == 1]
  {
  }

  lemma Regroup(a: seq<bool>, b: seq<bool>, c: seq<bool>)
    ensures (a + b) + c == a + (b + c)
  {
  }

  /** One step of the traceback: the bit of state, and the state before it. */
  method StepBack(ghost soft: seq<int>, step: nat, state: nat, trellis: array<seq<bool>>, out: array<bool>, ghost n: nat)
    returns (previous: nat)
    requires step < n == trellis.Length <= out.Length && state < 16 && 3 * n <= |soft| && HoldsDecisions(trellis, soft, n)
    modifies out
    ensures previous == Previous16(soft, step, state)
    ensures out[step..n] == [state / 8 == 1] + old(out[step + 1..n])
    ensures out[n..] == old(out[n..])
  {
    assert IsDecisionWord(trellis[step], soft, step);
    out[step] := state / 8 == 1;
    previous := (2 * state) % 16 + if trellis[step][state] then 1 else 0;
  }
}
