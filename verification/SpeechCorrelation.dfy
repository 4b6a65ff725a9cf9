/** The speech decoder as a correlation receiver. */
module SpeechCorrelation {
  import opened BitSeq
  import opened Trellis
  import opened BranchMetrics
  import opened Viterbi
  import opened SpeechCode
  import opened SpeechMetrics
  import opened SpeechViterbi

  /** Correlation of soft values with bits sent as +1 and -1. */
  function Correlation(soft: seq<int>, c: seq<bool>): int
    requires |soft| == |c|
  {
    if |c| == 0 then 0
    else Correlation(soft[..|c| - 1], c[..|c| - 1]) + soft[|c| - 1] * Sign(c[|c| - 1])
  }

  lemma {:induction false} CorrelationAppend(soft: seq<int>, c: seq<bool>, rx: seq<int>, e: seq<bool>)
    requires |soft| == |c| && |rx| == |e|
    ensures Correlation(soft + rx, c + e) == Correlation(soft, c) + Correlation(rx, e)
  {
    if |e| == 0 {
      assert soft + rx == soft && c + e == c;
    } else {
      var n := |e| - 1;
      CorrelationAppend(soft, c, rx[..n], e[..n]);
      assert (soft + rx)[..|c| + n] == soft + rx[..n] && (c + e)[..|c| + n] == c + e[..n];
    }
  }

  lemma CorrelationOfThree(rx: seq<int>, e: seq<bool>)
    requires |rx| == |e| == 3
    ensures Correlation(rx, e) == TripleMagnitude(rx) - 2 * SpeechMetric(e, rx)
  {
    NegatedCorrelation(e[0], rx[0]);
    NegatedCorrelation(e[1], rx[1]);
    NegatedCorrelation(e[2], rx[2]);
    ThreeProducts(rx, e);
  }

  lemma ThreeProducts(rx: seq<int>, e: seq<bool>)
    requires |rx| == |e| == 3
    ensures Correlation(rx, e) == rx[0] * Sign(e[0]) + rx[1] * Sign(e[1]) + rx[2] * Sign(e[2])
  {
    assert rx[..2][..1] == rx[..1] && e[..2][..1] == e[..1];
    assert Correlation(rx[..1], e[..1]) == rx[0] * Sign(e[0]);
    assert Correlation(rx[..2], e[..2]) == Correlation(rx[..1], e[..1]) + rx[1] * Sign(e[1]);
  }

  /** Twice the cost of a path is the total magnitude less its correlation. */
  lemma {:induction false} CostIsCorrelation(soft: seq<int>, n: nat, x: seq<bool>, b: nat)
    requires 3 * n <= |soft| && |x| <= n && b == 3 * |x|
    ensures b <= |soft|
    ensures 2 * Cost(MotherTable(soft, n), x) == SoftMagnitude(soft, |x|) - Correlation(soft[..b], SpeechEncode(x))
  {
    if |x| > 0 {
      var i := |x| - 1;
      CostIsCorrelation(soft, n, x[..i], b - 3);
      LastCost(MotherTable(soft, n), x, i);
      MotherCost(soft, n, i, b - 3, b, Register(x));
      StepMagnitude(soft, |x|, i, b - 3, b);
      StepCorrelation(soft, x, i, b - 3, b);
    }
  }

  lemma LastCost(w: seq<Row>, x: seq<bool>, i: nat)
    requires i + 1 == |x| <= |w|
    ensures Cost(w, x) == Cost(w, x[..i]) + w[i][Register(x)]
  {
  }

  lemma MotherCost(soft: seq<int>, n: nat, i: nat, a: nat, b: nat, sr: nat)
    requires 3 * n <= |soft| && i < n && a == 3 * i && b == a + 3 && sr < 32
    ensures b <= |soft| && MotherTable(soft, n)[i][sr] == SpeechMetric(SpeechOutputs(sr), soft[a..b])
  {
  }

  lemma StepMagnitude(soft: seq<int>, n: nat, i: nat, a: nat, b: nat)
    requires n == i + 1 && a == 3 * i && b == a + 3 && b <= |soft|
    ensures SoftMagnitude(soft, n) == SoftMagnitude(soft, i) + TripleMagnitude(soft[a..b])
  {
  }

  lemma StepCorrelation(soft: seq<int>, x: seq<bool>, i: nat, a: nat, b: nat)
    requires i + 1 == |x| && a == 3 * i && b == a + 3 && b <= |soft|
    ensures Correlation(soft[..b], SpeechEncode(x))
            == Correlation(soft[..a], SpeechEncode(x[..i])) + TripleMagnitude(soft[a..b])
               - 2 * SpeechMetric(SpeechOutputs(Register(x)), soft[a..b])
  {
    var e := SpeechOutputs(Register(x));
    CorrelationAppend(soft[..a], SpeechEncode(x[..i]), soft[a..b], e);
    CorrelationOfThree(soft[a..b], e);
    PrefixSplit(soft, a, b);
  }

  /** The decoder's bits are those of a terminated path of greatest correlation. */
  lemma DecodedCorrelatesBest(soft: seq<int>, n: nat, x: seq<bool>)
    requires 3 * n <= |soft| && |x| == n && Terminated(x)
    ensures var z := Decode(MotherTable(soft, n));
            Terminated(z) && Correlation(soft[..3 * n], SpeechEncode(x)) <= Correlation(soft[..3 * n], SpeechEncode(z))
  {
    var w := MotherTable(soft, n);
    DecodeIsOptimal(w);
    CostIsCorrelation(soft, n, x, 3 * n);
    CostIsCorrelation(soft, n, Decode(w), 3 * n);
  }
}
