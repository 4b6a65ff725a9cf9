/**
 * The speech channel's rate-1/3 code with constraint length 5, run continuously over class 1 and
 * class 2 bits with two puncturing patterns (ETSI EN 300 395-2 sections 5.4 and 5.5), and its
 * distance properties.
 */
module SpeechCode {
  import opened BitSeq
  import opened Trellis
  import opened ConvCode
  import opened BranchMetrics
  import opened CodeDistance

  /** Steps that carry class 1 bits; class 2 with check and tail bits follows. */
  const CLASS1_BITS: nat := 112

  /** Generators 1+D+D^2+D^3+D^4, 1+D+D^3+D^4 and 1+D^2+D^4, newest bit lowest. */
  const S1: nat := 0x1F
  const S2: nat := 0x1B
  const S3: nat := 0x15

  function SpeechOutputs(sr: nat): (o: seq<bool>)
    ensures |o| == 3
  {
    [Parity5(sr, S1), Parity5(sr, S2), Parity5(sr, S3)]
  }

  /** Rate-1/3 mother coding from the zero state. */
  function SpeechEncode(x: seq<bool>): (m: seq<bool>)
    ensures |m| == 3 * |x|
  {
    if |x| == 0 then [] else SpeechEncode(x[..|x| - 1]) + SpeechOutputs(Register(x))
  }

  /** Both patterns keep the first outputs of a step: 2,1 in class 1 and 3,2,2,2 in class 2. */
  function KeepCount(i: nat): (n: nat)
    ensures 1 <= n <= 3
  {
    if i < CLASS1_BITS then (if i % 2 == 0 then 2 else 1) else (if i % 4 == 0 then 3 else 2)
  }

  /** Coded bits kept before step i. */
  function Offset(i: nat): nat {
    if i == 0 then 0 else Offset(i - 1) + KeepCount(i - 1)
  }

  /** The punctured codeword of the bits x. */
  function SpeechCodeword(x: seq<bool>): (c: seq<bool>)
    ensures |c| == Offset(|x|)
  {
    if |x| == 0 then []
    else SpeechCodeword(x[..|x| - 1]) + SpeechOutputs(Register(x))[..KeepCount(|x| - 1)]
  }

  // ---- Linearity ----

  function SpeechTaps(a: bool, b: bool, c: bool, d: bool, e: bool): (o: seq<bool>)
    ensures |o| == 3
  {
    [(((a != b) != c) != d) != e, ((a != b) != d) != e, (a != c) != e]
  }

  lemma SpeechGeneratorBits()
    ensures Bit0(S1) && Bit1(S1) && Bit2(S1) && Bit3(S1) && Bit4(S1)
    ensures Bit0(S2) && Bit1(S2) && !Bit2(S2) && Bit3(S2) && Bit4(S2)
    ensures Bit0(S3) && !Bit1(S3) && Bit2(S3) && !Bit3(S3) && Bit4(S3)
  {
  }

  lemma SpeechWordOutputs(a: bool, b: bool, c: bool, d: bool, e: bool)
    ensures SpeechOutputs(Word(a, b, c, d, e)) == SpeechTaps(a, b, c, d, e)
  {
    WordBits(a, b, c, d, e);
    SpeechGeneratorBits();
    var x := Word(a, b, c, d, e);
    assert Parity5(x, S1) == ((((a != b) != c) != d) != e);
    assert Parity5(x, S2) == (((a != b) != d) != e);
    assert Parity5(x, S3) == ((a != c) != e);
  }

  lemma SpeechOutputsAreTaps(x: seq<bool>)
    ensures SpeechOutputs(Register(x)) == SpeechTaps(Tap(x, 0), Tap(x, 1), Tap(x, 2), Tap(x, 3), Tap(x, 4))
  {
    var a, b, c, d, e := Tap(x, 0), Tap(x, 1), Tap(x, 2), Tap(x, 3), Tap(x, 4);
    assert Register(x) == Word(a, b, c, d, e) by {
      RegisterHoldsTaps(x);
    }
    SpeechWordOutputs(a, b, c, d, e);
  }

  lemma SpeechTapsXor(a: bool, b: bool, c: bool, d: bool, e: bool, a': bool, b': bool, c': bool, d': bool, e': bool)
    ensures SpeechTaps(a != a', b != b', c != c', d != d', e != e')
            == Xor(SpeechTaps(a, b, c, d, e), SpeechTaps(a', b', c', d', e'))
  {
  }

  /** The speech code is linear as well. */
  lemma SpeechOutputsAreLinear(x: seq<bool>, y: seq<bool>)
    requires |x| == |y|
    ensures SpeechOutputs(Register(Xor(x, y))) == Xor(SpeechOutputs(Register(x)), SpeechOutputs(Register(y)))
  {
    var a, b, c, d, e := Tap(x, 0), Tap(x, 1), Tap(x, 2), Tap(x, 3), Tap(x, 4);
    var a', b', c', d', e' := Tap(y, 0), Tap(y, 1), Tap(y, 2), Tap(y, 3), Tap(y, 4);
    SpeechOutputsAreTaps(x);
    SpeechOutputsAreTaps(y);
    XorTaps(x, y);
    SpeechOutputsAreTaps(Xor(x, y));
    SpeechTapsXor(a, b, c, d, e, a', b', c', d', e');
  }

  // ---- Weighted distance ----

  /** How many of the first n outputs of register sr are 1. */
  function SpeechWeight(sr: nat, n: nat): nat {
    BitValue(Parity5(sr, S1)) + (if n >= 2 then BitValue(Parity5(sr, S2)) else 0)
    + if n >= 3 then BitValue(Parity5(sr, S3)) else 0
  }

  /** A difference counts 5 in class 1 and 4 in class 2. */
  function ClassFactor(i: nat): nat {
    if i < CLASS1_BITS then 5 else 4
  }

  function SpeechWeightRow(i: nat): Row {
    seq(32, sr requires 0 <= sr < 32 => ClassFactor(i) * SpeechWeight(sr, KeepCount(i)))
  }

  function SpeechWeightTable(n: nat): (v: seq<Row>)
    ensures |v| == n
  {
    seq(n, i requires 0 <= i < n => SpeechWeightRow(i))
  }

  /** Least weighted cost from state s in class 1, by phase of the step, back to state 0. */
  function ReturnCost1(s: nat, phase: nat): nat
    requires s < 16
  {
    match s
    case 0 => 0
    case 1 => if phase == 0 then 15 else 10
    case 2 => if phase == 0 then 20 else 15
    case 3 => if phase == 0 then 10 else 15
    case 4 => 15
    case 5 => 15
    case 6 => if phase == 0 then 15 else 5
    case 7 => 15
    case 8 => if phase == 0 then 10 else 5
    case 9 => 15
    case 10 => if phase == 0 then 20 else 15
    case 11 => if phase == 0 then 10 else 15
    case 12 => if phase == 0 then 5 else 10
    case 13 => if phase == 0 then 15 else 10
    case 14 => if phase == 0 then 12 else 10
    case _ => if phase == 0 then 15 else 12
  }

  /** Least weighted cost from state s in class 2 back to state 0. */
  function ReturnCost2(s: nat, phase: nat): nat
    requires s < 16
  {
    match s
    case 0 => 0
    case 1 => if phase == 0 then 24 else if phase == 1 then 20 else if phase == 2 then 20 else 20
    case 2 => if phase == 0 then 24 else if phase == 1 then 20 else if phase == 2 then 24 else 20
    case 3 => 20
    case 4 => if phase == 0 then 16 else if phase == 1 then 16 else if phase == 2 then 16 else 20
    case 5 => if phase == 0 then 20 else if phase == 1 then 24 else if phase == 2 then 20 else 20
    case 6 => if phase == 0 then 16 else if phase == 1 then 12 else if phase == 2 then 16 else 16
    case 7 => if phase == 0 then 20 else if phase == 1 then 20 else if phase == 2 then 20 else 16
    case 8 => if phase == 0 then 12 else if phase == 1 then 8 else if phase == 2 then 8 else 8
    case 9 => if phase == 0 then 24 else if phase == 1 then 24 else if phase == 2 then 20 else 24
    case 10 => if phase == 0 then 20 else if phase == 1 then 20 else if phase == 2 then 24 else 20
    case 11 => if phase == 0 then 16 else if phase == 1 then 20 else if phase == 2 then 20 else 20
    case 12 => if phase == 0 then 12 else if phase == 1 then 8 else if phase == 2 then 8 else 12
    case 13 => if phase == 0 then 20 else if phase == 1 then 20 else if phase == 2 then 20 else 16
    case 14 => if phase == 0 then 12 else if phase == 1 then 12 else if phase == 2 then 16 else 16
    case _ => if phase == 0 then 16 else if phase == 1 then 20 else if phase == 2 then 20 else 16
  }

  function KeepCount1(phase: nat): nat {
    if phase == 0 then 2 else 1
  }

  function KeepCount2(phase: nat): nat {
    if phase == 0 then 3 else 2
  }

  lemma ReturnCost1Step(s: nat, b: bool, phase: nat)
    requires s < 16 && phase < 2
    ensures var sr := 2 * s + BitValue(b);
            ReturnCost1(s, phase) <= 5 * SpeechWeight(sr, KeepCount1(phase)) + ReturnCost1(sr % 16, 1 - phase)
  {
    match s
    case 0 => case 1 => case 2 => case 3 => case 4 => case 5 => case 6 => case 7 =>
    case 8 => case 9 => case 10 => case 11 => case 12 => case 13 => case 14 => case _ =>
  }

  lemma ReturnCost2Phase0(s: nat, b: bool)
    requires s < 16
    ensures var sr := 2 * s + BitValue(b);
            ReturnCost2(s, 0) <= 4 * SpeechWeight(sr, KeepCount2(0)) + ReturnCost2(sr % 16, 1)
  {
    match s
    case 0 => case 1 => case 2 => case 3 => case 4 => case 5 => case 6 => case 7 =>
    case 8 => case 9 => case 10 => case 11 => case 12 => case 13 => case 14 => case _ =>
  }

  lemma ReturnCost2Phase1(s: nat, b: bool)
    requires s < 16
    ensures var sr := 2 * s + BitValue(b);
            ReturnCost2(s, 1) <= 4 * SpeechWeight(sr, KeepCount2(1)) + ReturnCost2(sr % 16, 2)
  {
    match s
    case 0 => case 1 => case 2 => case 3 => case 4 => case 5 => case 6 => case 7 =>
    case 8 => case 9 => case 10 => case 11 => case 12 => case 13 => case 14 => case _ =>
  }

  lemma ReturnCost2Phase2(s: nat, b: bool)
    requires s < 16
    ensures var sr := 2 * s + BitValue(b);
            ReturnCost2(s, 2) <= 4 * SpeechWeight(sr, KeepCount2(2)) + ReturnCost2(sr % 16, 3)
  {
    match s
    case 0 => case 1 => case 2 => case 3 => case 4 => case 5 => case 6 => case 7 =>
    case 8 => case 9 => case 10 => case 11 => case 12 => case 13 => case 14 => case _ =>
  }

  lemma ReturnCost2Phase3(s: nat, b: bool)
    requires s < 16
    ensures var sr := 2 * s + BitValue(b);
            ReturnCost2(s, 3) <= 4 * SpeechWeight(sr, KeepCount2(3)) + ReturnCost2(sr % 16, 0)
  {
    match s
    case 0 => case 1 => case 2 => case 3 => case 4 => case 5 => case 6 => case 7 =>
    case 8 => case 9 => case 10 => case 11 => case 12 => case 13 => case 14 => case _ =>
  }

  /** The class 2 pattern protects at least as well: costs may only rise at the border. */
  lemma BorderCost(s: nat)
    requires s < 16
    ensures ReturnCost1(s, 0) <= ReturnCost2(s, 0)
  {
  }

  lemma DepartureCost(phase: nat)
    ensures phase < 2 ==> 5 * SpeechWeight(1, KeepCount1(phase)) + ReturnCost1(1, 1 - phase) >= 20
    ensures 4 * SpeechWeight(1, KeepCount2(0)) + ReturnCost2(1, 1) >= 20
    ensures 4 * SpeechWeight(1, KeepCount2(1)) + ReturnCost2(1, 2) >= 20
    ensures 4 * SpeechWeight(1, KeepCount2(2)) + ReturnCost2(1, 3) >= 20
    ensures 4 * SpeechWeight(1, KeepCount2(3)) + ReturnCost2(1, 0) >= 20
  {
  }

  function ReturnCost(s: nat, i: nat): nat
    requires s < 16
  {
    if i < CLASS1_BITS then ReturnCost1(s, i % 2) else ReturnCost2(s, i % 4)
  }

  lemma NextQuarter(i: nat)
    ensures (i + 1) % 4 == if i % 4 == 3 then 0 else i % 4 + 1
  {
  }

  lemma ReturnCostStep(s: nat, b: bool, i: nat)
    requires s < 16
    ensures var sr := 2 * s + BitValue(b);
            ReturnCost(s, i) <= ClassFactor(i) * SpeechWeight(sr, KeepCount(i)) + ReturnCost(sr % 16, i + 1)
  {
    if i < CLASS1_BITS {
      NextPhase(i);
      ReturnCost1Step(s, b, i % 2);
      if i + 1 == CLASS1_BITS {
        BorderCost((2 * s + BitValue(b)) % 16);
      }
    } else {
      NextQuarter(i);
      if i % 4 == 0 {
        ReturnCost2Phase0(s, b);
      } else if i % 4 == 1 {
        ReturnCost2Phase1(s, b);
      } else if i % 4 == 2 {
        ReturnCost2Phase2(s, b);
      } else {
        ReturnCost2Phase3(s, b);
      }
    }
  }

  lemma DepartureReturn(i: nat)
    ensures ClassFactor(i) * SpeechWeight(1, KeepCount(i)) + ReturnCost(1, i + 1) >= 20
  {
    DepartureCost(i % 2);
    if i < CLASS1_BITS {
      NextPhase(i);
      if i + 1 == CLASS1_BITS {
        BorderCost(1);
      }
    } else {
      NextQuarter(i);
    }
  }

  ghost function ReturnCosts(x: seq<bool>): (h: seq<int>)
    ensures |h| == |x| + 1
  {
    seq(|x| + 1, k requires 0 <= k <= |x| => ReturnCost(StateAfter(x[..k]), k))
  }

  lemma SpeechStep(x: seq<bool>, k: nat)
    requires k < |x|
    ensures var sr := 2 * StateAfter(x[..k]) + BitValue(x[k]);
            && SpeechWeightTable(|x|)[k][RegisterAt(x, k)] == ClassFactor(k) * SpeechWeight(sr, KeepCount(k))
            && StateAfter(x[..k + 1]) == sr % 16
  {
    PathStep(x, k);
  }

  lemma ReturnCostAlong(x: seq<bool>, k: nat)
    requires k < |x|
    ensures ReturnCost(StateAfter(x[..k]), k)
            <= SpeechWeightTable(|x|)[k][RegisterAt(x, k)] + ReturnCost(StateAfter(x[..k + 1]), k + 1)
  {
    SpeechStep(x, k);
    ReturnCostStep(StateAfter(x[..k]), x[k], k);
  }

  lemma ReturnCostFalls(x: seq<bool>, k: nat)
    requires k < |x|
    ensures Falls(SpeechWeightTable(|x|), x, ReturnCosts(x), 1, k)
  {
    ReturnCostAlong(x, k);
  }

  lemma ReturnCostBound(x: seq<bool>, i: nat)
    requires i <= |x| && Terminated(x)
    ensures ReturnCost(StateAfter(x[..i]), i)
            <= Cost(SpeechWeightTable(|x|), x) - Cost(SpeechWeightTable(|x|), x[..i])
  {
    var h := ReturnCosts(x);
    forall k | i <= k < |x|
      ensures Falls(SpeechWeightTable(|x|), x, h, 1, k)
    {
      ReturnCostFalls(x, k);
    }
    Telescope(SpeechWeightTable(|x|), x, h, 1, i, |x|);
    assert x[..|x|] == x;
    assert h[|x|] == 0;
  }

  lemma FirstDeparture(x: seq<bool>, i: nat)
    requires i < |x| && x[i] && StateAfter(x[..i]) == 0
    ensures StateAfter(x[..i + 1]) == 1
    ensures Cost(SpeechWeightTable(|x|), x[..i + 1])
            == Cost(SpeechWeightTable(|x|), x[..i]) + ClassFactor(i) * SpeechWeight(1, KeepCount(i))
  {
    SpeechStep(x, i);
    PathStep(x, i);
    StepCost(SpeechWeightTable(|x|), x, i);
  }

  lemma ZeroRegisterWeighsNothing(n: nat)
    ensures forall k :: 0 <= k < n ==> SpeechWeightTable(n)[k][0] == 0
  {
    assert SpeechWeight(0, 1) == 0 && SpeechWeight(0, 2) == 0 && SpeechWeight(0, 3) == 0;
  }

  /** Every nonzero terminated path has weighted cost at least 20. */
  lemma SpeechWeightBound(x: seq<bool>)
    requires Terminated(x) && exists j :: 0 <= j < |x| && x[j]
    ensures Cost(SpeechWeightTable(|x|), x) >= 20
  {
    var i := FirstOne(x, 0);
    ZeroRegisterWeighsNothing(|x|);
    LeadingZeros(SpeechWeightTable(|x|), x, i);
    FirstDeparture(x, i);
    ReturnCostBound(x, i + 1);
    DepartureReturn(i);
  }
}
