/**
 * Distance properties of the punctured rate-2/3 code: two different terminated messages have
 * codewords at distance at least 4, and codewords at distance 6 or less come from messages that
 * differ only inside a short window.
 */
module CodeDistance {
  import opened BitSeq
  import opened Trellis
  import opened ConvCode
  import opened BranchMetrics

  // ---- Lower bounds on the cost of a path ----

  /** Register value of x at step k. */
  function RegisterAt(x: seq<bool>, k: nat): (sr: nat)
    requires k < |x|
    ensures sr < 32
  {
    Register(x[..k + 1])
  }

  /** The height h falls by no more than scale times the row's cost in step k of the path x. */
  ghost predicate Falls(v: seq<Row>, x: seq<bool>, h: seq<int>, scale: nat, k: nat)
    requires k < |x| <= |v| && |h| == |x| + 1
  {
    h[k] <= scale * v[k][RegisterAt(x, k)] + h[k + 1]
  }

  lemma {:induction false} Telescope(v: seq<Row>, x: seq<bool>, h: seq<int>, scale: nat, i: nat, n: nat)
    requires i <= n <= |x| <= |v| && |h| == |x| + 1
    requires forall k :: i <= k < |x| ==> Falls(v, x, h, scale, k)
    ensures h[i] - h[n] <= scale * (Cost(v, x[..n]) - Cost(v, x[..i]))
  {
    if i < n {
      Telescope(v, x, h, scale, i, n - 1);
      StepCost(v, x, n - 1);
      assert Falls(v, x, h, scale, n - 1);
      Distribute(scale, Cost(v, x[..n - 1]) - Cost(v, x[..i]), v[n - 1][RegisterAt(x, n - 1)]);
    }
  }

  lemma Distribute(k: int, a: int, b: int)
    ensures k * (a + b) == k * a + k * b
  {
  }

  // ---- Weights of the kept outputs ----

  /** How many of the kept outputs of register sr are 1; even steps keep g1 and g2, odd ones g1. */
  function Weight(sr: nat, phase: nat): nat {
    BitValue(Parity5(sr, G1)) + if phase == 0 then BitValue(Parity5(sr, G2)) else 0
  }

  function WeightRow(phase: nat): Row {
    seq(32, sr requires 0 <= sr < 32 => Weight(sr, phase))
  }

  function WeightTable(n: nat): (v: seq<Row>)
    ensures |v| == n
  {
    seq(n, i requires 0 <= i < n => WeightRow(i % 2))
  }

  /** Least weight of a path from state s back to state 0, by parity of the step (phase). */
  function ReturnWeight(s: nat, phase: nat): nat
    requires s < 16
  {
    match s
    case 0 => 0
    case 1 => if phase == 0 then 3 else 4
    case 2 => if phase == 0 then 3 else 2
    case 3 => 4
    case 4 => 2
    case 5 => if phase == 0 then 3 else 2
    case 6 => if phase == 0 then 3 else 2
    case 7 => 4
    case 8 => if phase == 0 then 2 else 1
    case 9 => 3
    case 10 => 3
    case 11 => if phase == 0 then 2 else 3
    case 12 => if phase == 0 then 2 else 3
    case 13 => 3
    case 14 => 3
    case _ => if phase == 0 then 4 else 3
  }

  lemma ReturnWeightStep(s: nat, b: bool, phase: nat)
    requires s < 16 && phase < 2
    ensures ReturnWeight(s, phase)
            <= Weight(2 * s + BitValue(b), phase) + ReturnWeight((2 * s + BitValue(b)) % 16, 1 - phase)
  {
    match s
    case 0 => case 1 => case 2 => case 3 => case 4 => case 5 => case 6 => case 7 =>
    case 8 => case 9 => case 10 => case 11 => case 12 => case 13 => case 14 => case _ =>
  }

  /** State and register of a path from one step to the next. */
  lemma PathStep(x: seq<bool>, k: nat)
    requires k < |x|
    ensures RegisterAt(x, k) == 2 * StateAfter(x[..k]) + BitValue(x[k])
    ensures StateAfter(x[..k + 1]) == RegisterAt(x, k) % 16
  {
    assert x[..k + 1] == x[..k] + [x[k]];
    RegisterExtend(x[..k], x[k]);
  }

  lemma {:induction false} LeadingZeros(v: seq<Row>, x: seq<bool>, i: nat)
    requires i <= |x| <= |v|
    requires forall k :: 0 <= k < i ==> !x[k] && v[k][0] == 0
    ensures StateAfter(x[..i]) == 0 && Cost(v, x[..i]) == 0
  {
    if i > 0 {
      LeadingZeros(v, x, i - 1);
      PathStep(x, i - 1);
      assert x[..i][..i - 1] == x[..i - 1];
    }
  }

  ghost function ReturnHeights(x: seq<bool>): (h: seq<int>)
    ensures |h| == |x| + 1
  {
    seq(|x| + 1, k requires 0 <= k <= |x| => ReturnWeight(StateAfter(x[..k]), k % 2))
  }

  lemma NextPhase(i: nat)
    ensures (i + 1) % 2 == 1 - i % 2
  {
  }

  /** Old state, weight, new state and phase in step k of the path x. */
  lemma WeightStep(x: seq<bool>, k: nat)
    requires k < |x|
    ensures var sr := 2 * StateAfter(x[..k]) + BitValue(x[k]);
            && WeightTable(|x|)[k][RegisterAt(x, k)] == Weight(sr, k % 2)
            && StateAfter(x[..k + 1]) == sr % 16
            && (k + 1) % 2 == 1 - k % 2
  {
    PathStep(x, k);
    NextPhase(k);
  }

  lemma ReturnStep(x: seq<bool>, k: nat)
    requires k < |x|
    ensures ReturnWeight(StateAfter(x[..k]), k % 2)
            <= WeightTable(|x|)[k][RegisterAt(x, k)] + ReturnWeight(StateAfter(x[..k + 1]), (k + 1) % 2)
  {
    WeightStep(x, k);
    ReturnWeightStep(StateAfter(x[..k]), x[k], k % 2);
  }

  lemma ReturnHeightFalls(x: seq<bool>, k: nat)
    requires k < |x|
    ensures Falls(WeightTable(|x|), x, ReturnHeights(x), 1, k)
  {
    ReturnStep(x, k);
  }

  /** From any step on, a terminated path costs at least the return weight of its state. */
  lemma ReturnBound(x: seq<bool>, i: nat)
    requires i <= |x| && Terminated(x)
    ensures ReturnWeight(StateAfter(x[..i]), i % 2)
            <= Cost(WeightTable(|x|), x) - Cost(WeightTable(|x|), x[..i])
  {
    var h := ReturnHeights(x);
    forall k | i <= k < |x|
      ensures Falls(WeightTable(|x|), x, h, 1, k)
    {
      ReturnHeightFalls(x, k);
    }
    Telescope(WeightTable(|x|), x, h, 1, i, |x|);
    assert x[..|x|] == x;
    assert h[|x|] == 0;
  }

  lemma DepartureWeight(phase: nat)
    requires phase < 2
    ensures Weight(1, phase) + ReturnWeight(1, 1 - phase) >= 4
  {
  }

  lemma StepCost(v: seq<Row>, x: seq<bool>, i: nat)
    requires i < |x| <= |v|
    ensures Cost(v, x[..i + 1]) == Cost(v, x[..i]) + v[i][RegisterAt(x, i)]
  {
    assert x[..i + 1][..i] == x[..i];
  }

  lemma DepartureStep(x: seq<bool>, i: nat)
    requires i < |x| && StateAfter(x[..i]) == 0 && x[i]
    ensures StateAfter(x[..i + 1]) == 1
    ensures Cost(WeightTable(|x|), x[..i + 1]) == Cost(WeightTable(|x|), x[..i]) + Weight(1, i % 2)
  {
    PathStep(x, i);
    StepCost(WeightTable(|x|), x, i);
  }

  /** A path that leaves state 0 with a 1 at step i costs at least 4 from there on. */
  lemma DepartureBound(x: seq<bool>, i: nat)
    requires i < |x| && Terminated(x)
    requires StateAfter(x[..i]) == 0 && x[i]
    ensures Cost(WeightTable(|x|), x) - Cost(WeightTable(|x|), x[..i]) >= 4
  {
    DepartureStep(x, i);
    NextPhase(i);
    ReturnBound(x, i + 1);
    DepartureWeight(i % 2);
  }

  lemma WeightIsAtLeastFour(x: seq<bool>)
    requires Terminated(x) && exists j :: 0 <= j < |x| && x[j]
    ensures Cost(WeightTable(|x|), x) >= 4
  {
    var i := FirstOne(x, 0);
    LeadingZeros(WeightTable(|x|), x, i);
    DepartureBound(x, i);
  }

  // ---- Light codewords are short ----

  /**
   * For a path that stays away from state 0 until its last 1, j - i steps later, six times the
   * remaining weight is at least j - i plus this amount.
   */
  function SpanWeight(s: nat, phase: nat): nat
    requires s < 16
  {
    match s
    case 0 => 0
    case 1 => if phase == 0 then 21 else 14
    case 2 => if phase == 0 then 17 else 20
    case 3 => if phase == 0 then 15 else 16
    case 4 => if phase == 0 then 21 else 12
    case 5 => if phase == 0 then 15 else 12
    case 6 => if phase == 0 then 17 else 18
    case 7 => if phase == 0 then 17 else 16
    case 8 => if phase == 0 then 13 else 18
    case 9 => if phase == 0 then 21 else 16
    case 10 => if phase == 0 then 17 else 14
    case 11 => if phase == 0 then 17 else 16
    case 12 => if phase == 0 then 21 else 18
    case 13 => if phase == 0 then 13 else 16
    case 14 => if phase == 0 then 15 else 12
    case _ => if phase == 0 then 17 else 14
  }

  lemma SpanStep(s: nat, b: bool, phase: nat)
    requires 0 < s < 16 && phase < 2 && (2 * s + BitValue(b)) % 16 != 0
    ensures SpanWeight(s, phase) + 1
            <= 6 * Weight(2 * s + BitValue(b), phase) + SpanWeight((2 * s + BitValue(b)) % 16, 1 - phase)
  {
    match s
    case 1 => case 2 => case 3 => case 4 => case 5 => case 6 => case 7 =>
    case 8 => case 9 => case 10 => case 11 => case 12 => case 13 => case 14 => case _ =>
  }

  lemma SpanEnd(s: nat, phase: nat)
    requires 0 < s < 16 && phase < 2
    ensures SpanWeight(s, phase) <= 6 * Weight(2 * s + 1, phase) + 6 * ReturnWeight((2 * s + 1) % 16, 1 - phase)
  {
    match s
    case 1 => case 2 => case 3 => case 4 => case 5 => case 6 => case 7 =>
    case 8 => case 9 => case 10 => case 11 => case 12 => case 13 => case 14 => case _ =>
  }

  lemma SpanDeparture(phase: nat)
    requires phase < 2
    ensures 6 * Weight(1, phase) + SpanWeight(1, 1 - phase) >= 26
  {
  }

  function Min(a: int, b: int): int {
    if a < b then a else b
  }

  /** Six times the weight still to come in state s, d steps before the last 1 of the path. */
  function LastOneHeight(s: nat, phase: nat, d: nat): int
    requires s < 16
  {
    if s == 0 then 24 else Min(24 + 6 * ReturnWeight(s, phase), d + SpanWeight(s, phase))
  }

  lemma LastOneStep(s: nat, b: bool, phase: nat, d: nat)
    requires s < 16 && phase < 2 && d > 0
    ensures LastOneHeight(s, phase, d)
            <= 6 * Weight(2 * s + BitValue(b), phase) + LastOneHeight((2 * s + BitValue(b)) % 16, 1 - phase, d - 1)
  {
    var sr := 2 * s + BitValue(b);
    ReturnWeightStep(s, b, phase);
    if s == 0 {
      SpanDeparture(phase);
    } else if sr % 16 != 0 {
      SpanStep(s, b, phase);
    }
  }

  lemma LastOneEnd(s: nat, phase: nat)
    requires s < 16 && phase < 2
    ensures LastOneHeight(s, phase, 0) <= 6 * Weight(2 * s + 1, phase) + 6 * ReturnWeight((2 * s + 1) % 16, 1 - phase)
  {
    if s == 0 {
      DepartureWeight(phase);
    } else {
      SpanEnd(s, phase);
    }
  }

  /** Up to the 1 at position j look ahead to it, afterwards to the end. */
  function SpanHeight(s: nat, k: nat, j: nat): int
    requires s < 16
  {
    if k <= j then LastOneHeight(s, k % 2, j - k) else 6 * ReturnWeight(s, k % 2)
  }

  lemma SpanHeightStep(s: nat, b: bool, k: nat, j: nat)
    requires s < 16 && (k == j ==> b)
    ensures SpanHeight(s, k, j)
            <= 6 * Weight(2 * s + BitValue(b), k % 2) + SpanHeight((2 * s + BitValue(b)) % 16, k + 1, j)
  {
    NextPhase(k);
    if k < j {
      LastOneStep(s, b, k % 2, j - k);
    } else if k == j {
      LastOneEnd(s, k % 2);
    } else {
      ReturnWeightStep(s, b, k % 2);
    }
  }

  ghost function SpanHeights(x: seq<bool>, j: nat): (h: seq<int>)
    ensures |h| == |x| + 1
  {
    seq(|x| + 1, k requires 0 <= k <= |x| => SpanHeight(StateAfter(x[..k]), k, j))
  }

  lemma SpanStepAlong(x: seq<bool>, j: nat, k: nat)
    requires j < |x| && k < |x| && x[j]
    ensures SpanHeight(StateAfter(x[..k]), k, j)
            <= 6 * WeightTable(|x|)[k][RegisterAt(x, k)] + SpanHeight(StateAfter(x[..k + 1]), k + 1, j)
  {
    WeightStep(x, k);
    SpanHeightStep(StateAfter(x[..k]), x[k], k, j);
  }

  lemma SpanHeightFalls(x: seq<bool>, j: nat, k: nat)
    requires j < |x| && k < |x| && x[j]
    ensures Falls(WeightTable(|x|), x, SpanHeights(x, j), 6, k)
  {
    SpanStepAlong(x, j, k);
  }

  lemma SpanBound(x: seq<bool>, j: nat, i: nat)
    requires i <= j < |x| && x[j] && Terminated(x)
    ensures LastOneHeight(StateAfter(x[..i]), i % 2, j - i)
            <= 6 * (Cost(WeightTable(|x|), x) - Cost(WeightTable(|x|), x[..i]))
  {
    var h := SpanHeights(x, j);
    forall k | i <= k < |x|
      ensures Falls(WeightTable(|x|), x, h, 6, k)
    {
      SpanHeightFalls(x, j, k);
    }
    Telescope(WeightTable(|x|), x, h, 6, i, |x|);
    assert x[..|x|] == x;
    assert h[|x|] == 0;
  }

  /** A terminated path of weight at most 6 has all its 1s within 12 consecutive positions. */
  lemma LightPathIsShort(x: seq<bool>, i: nat, j: nat)
    requires Terminated(x) && Cost(WeightTable(|x|), x) <= 6
    requires i <= j < |x| && x[i] && x[j]
    ensures j - i < 12
  {
    var f := FirstOne(x, 0);
    LeadingZeros(WeightTable(|x|), x, f);
    if f < j {
      DepartureStep(x, f);
      NextPhase(f);
      SpanBound(x, j, f + 1);
      SpanDeparture(f % 2);
      DepartureWeight(f % 2);
    }
  }

  // ---- Distance between codewords ----

  function TripleDistance(u: seq<bool>, v: seq<bool>): nat
    requires |u| == |v| == 3
  {
    (if u[0] == v[0] then 0 else 1) + (if u[1] == v[1] then 0 else 1) + (if u[2] == v[2] then 0 else 1)
  }

  lemma {:induction false} DistanceAppend(y: seq<bool>, c: seq<bool>, u: seq<bool>, v: seq<bool>)
    requires |y| == |c| && |u| == |v|
    ensures Distance(y + u, c + v) == Distance(y, c) + Distance(u, v)
  {
    if |u| == 0 {
      assert y + u == y && c + v == c;
    } else {
      var n := |u| - 1;
      DistanceAppend(y, c, u[..n], v[..n]);
      assert (y + u)[..|y| + n] == y + u[..n] && (c + v)[..|c| + n] == c + v[..n];
    }
  }

  lemma DistanceOfTriple(u: seq<bool>, v: seq<bool>)
    requires |u| == |v| == 3
    ensures Distance(u, v) == TripleDistance(u, v)
  {
    assert u[..2][..1] == u[..1] && v[..2][..1] == v[..1];
    assert Distance(u[..1], v[..1]) == if u[0] == v[0] then 0 else 1;
    assert Distance(u[..2], v[..2]) == Distance(u[..1], v[..1]) + if u[1] == v[1] then 0 else 1;
  }

  lemma XorExtend(x: seq<bool>, y: seq<bool>, a: bool, b: bool)
    requires |x| == |y|
    ensures Xor(x + [a], y + [b]) == Xor(x, y) + [a != b]
  {
  }

  /** Three coded bits of two messages differ as often as their exclusive or has 1s there. */
  lemma PairDistance(x: seq<bool>, y: seq<bool>, a: bool, b: bool, c: bool, d: bool)
    requires |x| == |y|
    ensures TripleDistance(PairOutputs(x, a, b), PairOutputs(y, c, d))
            == Weight(Register(Xor(x, y) + [a != c]), 0) + Weight(Register(Xor(x, y) + [a != c] + [b != d]), 1)
  {
    OutputsAreLinear(x + [a], y + [c]);
    XorExtend(x, y, a, c);
    OutputsAreLinear(x + [a] + [b], y + [c] + [d]);
    XorExtend(x + [a], y + [c], b, d);
  }

  /** Two more bits add their two weights to the cost of a path. */
  lemma WeightOfPair(z: seq<bool>, p: nat, n: nat, e: bool, f: bool)
    requires |z| == 2 * p && n == p + 1
    ensures Cost(WeightTable(2 * n), z + [e] + [f])
            == Cost(WeightTable(2 * p), z) + Weight(Register(z + [e]), 0) + Weight(Register(z + [e] + [f]), 1)
  {
    CostPrefix(WeightTable(2 * n), WeightTable(2 * p), z);
    CostOfPair(WeightTable(2 * n), z, e, f);
    EvenPhase(p);
  }

  lemma CodewordDistanceStep(x: seq<bool>, y: seq<bool>, p: nat, n: nat, a: bool, b: bool, c: bool, d: bool)
    requires |x| == |y| == 2 * p && n == p + 1
    requires Distance(Codeword(x, p), Codeword(y, p)) == Cost(WeightTable(2 * p), Xor(x, y))
    ensures Distance(Codeword(x + [a] + [b], n), Codeword(y + [c] + [d], n))
            == Cost(WeightTable(2 * n), Xor(x, y) + [a != c] + [b != d])
  {
    CodewordExtend(x, p, a, b);
    CodewordExtend(y, p, c, d);
    DistanceAppend(Codeword(x, p), Codeword(y, p), PairOutputs(x, a, b), PairOutputs(y, c, d));
    DistanceOfTriple(PairOutputs(x, a, b), PairOutputs(y, c, d));
    PairDistance(x, y, a, b, c, d);
    WeightOfPair(Xor(x, y), p, n, a != c, b != d);
  }

  lemma EvenPhase(p: nat)
    ensures (2 * p) % 2 == 0 && (2 * p + 1) % 2 == 1
  {
  }

  lemma XorSplitLastTwo(x: seq<bool>, y: seq<bool>, q: nat)
    requires |x| == |y| == q + 2
    ensures Xor(x, y) == Xor(x[..q], y[..q]) + [x[q] != y[q]] + [x[q + 1] != y[q + 1]]
  {
  }

  /** The distance of two codewords is the weight of the path of their exclusive or. */
  lemma {:induction false} CodewordDistance(x: seq<bool>, y: seq<bool>, p: nat)
    requires |x| == |y| == 2 * p
    ensures Distance(Codeword(x, p), Codeword(y, p)) == Cost(WeightTable(2 * p), Xor(x, y))
  {
    if p > 0 {
      var q := 2 * p - 2;
      CodewordDistance(x[..q], y[..q], p - 1);
      CodewordDistanceSplit(x, y, p, q);
    }
  }

  lemma CodewordDistanceSplit(x: seq<bool>, y: seq<bool>, p: nat, q: nat)
    requires p > 0 && |x| == |y| == 2 * p && q == 2 * (p - 1)
    requires Distance(Codeword(x[..q], p - 1), Codeword(y[..q], p - 1)) == Cost(WeightTable(q), Xor(x[..q], y[..q]))
    ensures Distance(Codeword(x, p), Codeword(y, p)) == Cost(WeightTable(2 * p), Xor(x, y))
  {
    var x', y', a, b, c, d := x[..q], y[..q], x[q], x[q + 1], y[q], y[q + 1];
    CodewordDistanceStep(x', y', p - 1, p, a, b, c, d);
    var e := Xor(x', y') + [a != c] + [b != d];
    assert x' + [a] + [b] == x by { SplitLastTwo(x); }
    assert y' + [c] + [d] == y by { SplitLastTwo(y); }
    assert e == Xor(x, y) by { XorSplitLastTwo(x, y, q); }
    assert Distance(Codeword(x, p), Codeword(y, p)) == Cost(WeightTable(2 * p), e);
  }
}
