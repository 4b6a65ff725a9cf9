/**
 * Distances between speech codewords, and what a path costs in the speech decoder: the total
 * penalty of the received class 1 and class 2 values against the path's codeword.
 */
module SpeechMetrics {
  import opened BitSeq
  import opened Trellis
  import opened ConvCode
  import opened BranchMetrics
  import opened CodeDistance
  import opened ErrorCorrection
  import opened SpeechCode

  // ---- Distances between codewords ----

  /** Differences among the first n of three bits. */
  function PrefixDifferences(u: seq<bool>, v: seq<bool>, n: nat): nat
    requires |u| == |v| == 3
  {
    BitValue(u[0] != v[0]) + (if n >= 2 then BitValue(u[1] != v[1]) else 0)
    + if n >= 3 then BitValue(u[2] != v[2]) else 0
  }

  lemma PrefixDistance(u: seq<bool>, v: seq<bool>, n: nat)
    requires |u| == |v| == 3 && 1 <= n <= 3
    ensures Distance(u[..n], v[..n]) == PrefixDifferences(u, v, n)
  {
    assert u[..2][..1] == u[..1] && v[..2][..1] == v[..1];
    assert u[..3][..2] == u[..2] && v[..3][..2] == v[..2];
    assert Distance(u[..1], v[..1]) == BitValue(u[0] != v[0]);
    assert Distance(u[..2], v[..2]) == Distance(u[..1], v[..1]) + BitValue(u[1] != v[1]);
  }

  lemma StepDistance(x: seq<bool>, y: seq<bool>, n: nat)
    requires |x| == |y| && 1 <= n <= 3
    ensures Distance(SpeechOutputs(Register(x))[..n], SpeechOutputs(Register(y))[..n])
            == SpeechWeight(Register(Xor(x, y)), n)
  {
    PrefixDistance(SpeechOutputs(Register(x)), SpeechOutputs(Register(y)), n);
    SpeechOutputsAreLinear(x, y);
  }

  /** Distance of the codewords of the first n bits. */
  ghost function PrefixCodeDistance(x: seq<bool>, y: seq<bool>, n: nat): nat
    requires n <= |x| == |y|
  {
    Distance(SpeechCodeword(x[..n]), SpeechCodeword(y[..n]))
  }

  /** Weight that step k of the exclusive or adds to the distance. */
  ghost function StepWeight(x: seq<bool>, y: seq<bool>, k: nat): nat
    requires k < |x| == |y|
  {
    SpeechWeight(RegisterAt(Xor(x, y), k), KeepCount(k))
  }

  lemma PrefixCodeDistanceStep(x: seq<bool>, y: seq<bool>, k: nat, n: nat)
    requires k < |x| == |y| && n == k + 1
    ensures PrefixCodeDistance(x, y, n) == PrefixCodeDistance(x, y, k) + StepWeight(x, y, k)
  {
    CodewordStep(x, k, n);
    CodewordStep(y, k, n);
    var c := KeepCount(k);
    DistanceAppend(SpeechCodeword(x[..k]), SpeechCodeword(y[..k]),
                   SpeechOutputs(Register(x[..n]))[..c], SpeechOutputs(Register(y[..n]))[..c]);
    StepDistance(x[..n], y[..n], c);
    assert Xor(x, y)[..n] == Xor(x[..n], y[..n]);
  }

  lemma CodewordStep(x: seq<bool>, k: nat, n: nat)
    requires k < |x| && n == k + 1
    ensures SpeechCodeword(x[..n]) == SpeechCodeword(x[..k]) + SpeechOutputs(Register(x[..n]))[..KeepCount(k)]
  {
    assert x[..n][..k] == x[..k];
  }

  /** Distances of the codewords of all prefixes. */
  ghost function PrefixDistances(x: seq<bool>, y: seq<bool>): (d: seq<int>)
    requires |x| == |y|
    ensures |d| == |x| + 1
    ensures forall n :: 0 <= n <= |x| ==> d[n] == PrefixCodeDistance(x, y, n)
  {
    seq(|x| + 1, n requires 0 <= n <= |x| => PrefixCodeDistance(x, y, n))
  }

  /** Growth of d up to n with each step's share weighted by its class. */
  function WeightedGrowth(d: seq<int>, n: nat): int
    requires n < |d|
  {
    if n == 0 then 0 else WeightedGrowth(d, n - 1) + ClassFactor(n - 1) * (d[n] - d[n - 1])
  }

  /** Five times the growth in class 1 plus four times the growth after it. */
  lemma {:induction false} GrowthByClass(d: seq<int>, n: nat)
    requires n < |d|
    ensures n <= CLASS1_BITS ==> WeightedGrowth(d, n) == 5 * (d[n] - d[0])
    ensures n > CLASS1_BITS ==>
              WeightedGrowth(d, n) == 5 * (d[CLASS1_BITS] - d[0]) + 4 * (d[n] - d[CLASS1_BITS])
  {
    if n > 0 {
      GrowthByClass(d, n - 1);
    }
  }

  /** Step k's weighted growth of d is its cost on the path e. */
  predicate GrowsAsCost(v: seq<Row>, e: seq<bool>, d: seq<int>, k: nat)
    requires k < |e| <= |v| && |d| == |e| + 1
  {
    ClassFactor(k) * (d[k + 1] - d[k]) == v[k][RegisterAt(e, k)]
  }

  lemma {:induction false} GrowthIsCost(v: seq<Row>, e: seq<bool>, d: seq<int>, n: nat)
    requires n <= |e| <= |v| && |d| == |e| + 1
    requires forall k :: 0 <= k < |e| ==> GrowsAsCost(v, e, d, k)
    ensures WeightedGrowth(d, n) == Cost(v, e[..n])
  {
    if n > 0 {
      GrowthIsCost(v, e, d, n - 1);
      assert GrowsAsCost(v, e, d, n - 1);
      StepCost(v, e, n - 1);
    }
  }

  lemma WeightedStep(x: seq<bool>, y: seq<bool>, k: nat, n: nat)
    requires k < |x| == |y| && n == k + 1
    ensures GrowsAsCost(SpeechWeightTable(|x|), Xor(x, y), PrefixDistances(x, y), k)
  {
    PrefixCodeDistanceStep(x, y, k, n);
  }

  /** The weighted distance of two codewords is the cost of the exclusive or. */
  lemma WeightedDistanceIsCost(x: seq<bool>, y: seq<bool>)
    requires |x| == |y|
    ensures WeightedGrowth(PrefixDistances(x, y), |x|) == Cost(SpeechWeightTable(|x|), Xor(x, y))
  {
    var v, e, d := SpeechWeightTable(|x|), Xor(x, y), PrefixDistances(x, y);
    forall k | 0 <= k < |e|
      ensures GrowsAsCost(v, e, d, k)
    {
      WeightedStep(x, y, k, k + 1);
    }
    WholeGrowth(v, e, d);
  }

  lemma WholeGrowth(v: seq<Row>, e: seq<bool>, d: seq<int>)
    requires |e| == |v| && |d| == |e| + 1 && forall k :: 0 <= k < |e| ==> GrowsAsCost(v, e, d, k)
    ensures WeightedGrowth(d, |e|) == Cost(v, e)
  {
    GrowthIsCost(v, e, d, |e|);
    assert e[..|e|] == e;
  }

  lemma WeightedMinimum(x: seq<bool>, y: seq<bool>)
    requires |x| == |y| && Terminated(x) && Terminated(y) && x != y
    ensures WeightedGrowth(PrefixDistances(x, y), |x|) >= 20
  {
    XorTerminated(x, y);
    XorNonzero(x, y);
    SpeechWeightBound(Xor(x, y));
    WeightedDistanceIsCost(x, y);
  }

  /** Different terminated bits: distance 4 or more, and 5 or more unless only class 1 differs. */
  lemma SpeechMinimumDistance(x: seq<bool>, y: seq<bool>)
    requires |x| == |y| >= CLASS1_BITS && Terminated(x) && Terminated(y) && x != y
    ensures var d1, d := PrefixCodeDistance(x, y, CLASS1_BITS), PrefixCodeDistance(x, y, |x|);
            d1 <= d && 5 * d1 + 4 * (d - d1) >= 20
  {
    WeightedMinimum(x, y);
    GrowthByClass(PrefixDistances(x, y), |x|);
    assert PrefixDistances(x, y)[0] == 0;
    PrefixCodeDistanceMonotone(x, y, CLASS1_BITS, |x|);
  }

  lemma XorNonzero(x: seq<bool>, y: seq<bool>)
    requires |x| == |y| && x != y
    ensures exists j :: 0 <= j < |x| && Xor(x, y)[j]
  {
    var j :| 0 <= j < |x| && x[j] != y[j];
    assert Xor(x, y)[j];
  }

  lemma {:induction false} PrefixCodeDistanceMonotone(x: seq<bool>, y: seq<bool>, m: nat, n: nat)
    requires m <= n <= |x| == |y|
    ensures PrefixCodeDistance(x, y, m) <= PrefixCodeDistance(x, y, n)
  {
    if m < n {
      PrefixCodeDistanceMonotone(x, y, m, n - 1);
      PrefixCodeDistanceGrows(x, y, n - 1, n);
    }
  }

  lemma PrefixCodeDistanceGrows(x: seq<bool>, y: seq<bool>, k: nat, n: nat)
    requires k < |x| == |y| && n == k + 1
    ensures PrefixCodeDistance(x, y, k) <= PrefixCodeDistance(x, y, n)
  {
    PrefixCodeDistanceStep(x, y, k, n);
  }

  // ---- Costs in the decoder ----

  function SpeechMetric(e: seq<bool>, rx: seq<int>): nat
    requires |e| == |rx| == 3
  {
    SoftPenalty(e[0], rx[0]) + SoftPenalty(e[1], rx[1]) + SoftPenalty(e[2], rx[2])
  }

  function SpeechRow(rx: seq<int>): Row
    requires |rx| == 3
  {
    seq(32, sr requires 0 <= sr < 32 => SpeechMetric(SpeechOutputs(sr), rx))
  }

  /** The three mother values of step i: received ones where kept, 0 where punctured. */
  function Spread(y: seq<int>, i: nat): (r: seq<int>)
    requires Offset(i + 1) <= |y|
    ensures |r| == 3
  {
    var o, n := Offset(i), KeepCount(i);
    [y[o], if n >= 2 then y[o + 1] else 0, if n >= 3 then y[o + 2] else 0]
  }

  lemma {:induction false} OffsetMonotone(m: nat, n: nat)
    requires m <= n
    ensures Offset(m) <= Offset(n)
  {
    if m < n {
      OffsetMonotone(m, n - 1);
    }
  }

  /** Depunctured mother values of n steps. */
  function SpeechDepunctured(y: seq<int>, n: nat): (m: seq<int>)
    requires Offset(n) <= |y|
    ensures |m| == 3 * n
  {
    if n == 0 then [] else SpeechDepunctured(y, n - 1) + Spread(y, n - 1)
  }

  function SpeechTable(y: seq<int>, n: nat): (w: seq<Row>)
    requires Offset(n) <= |y|
    ensures |w| == n
  {
    if n == 0 then [] else SpeechTable(y, n - 1) + [SpeechRow(Spread(y, n - 1))]
  }

  lemma {:induction false} SpeechTableAt(y: seq<int>, n: nat, i: nat)
    requires Offset(n) <= |y| && i < n
    ensures Offset(i + 1) <= |y| && SpeechTable(y, n)[i] == SpeechRow(Spread(y, i))
  {
    OffsetMonotone(i + 1, n);
    if i < n - 1 {
      SpeechTableAt(y, n - 1, i);
    }
  }

  lemma {:induction false} SoftDistanceAppend(y: seq<int>, c: seq<bool>, u: seq<int>, v: seq<bool>)
    requires |y| == |c| && |u| == |v|
    ensures SoftDistance(y + u, c + v) == SoftDistance(y, c) + SoftDistance(u, v)
  {
    if |u| == 0 {
      assert y + u == y && c + v == c;
    } else {
      var n := |u| - 1;
      SoftDistanceAppend(y, c, u[..n], v[..n]);
      assert (y + u)[..|y| + n] == y + u[..n] && (c + v)[..|c| + n] == c + v[..n];
    }
  }

  lemma SoftDistanceUpToThree(u: seq<int>, v: seq<bool>)
    requires 1 <= |u| == |v| <= 3
    ensures SoftDistance(u, v) == SoftPenalty(v[0], u[0]) + (if |u| >= 2 then SoftPenalty(v[1], u[1]) else 0)
                                  + if |u| >= 3 then SoftPenalty(v[2], u[2]) else 0
  {
    if |u| == 2 {
      assert SoftDistance(u[..1], v[..1]) == SoftPenalty(v[0], u[0]);
    } else if |u| == 3 {
      SoftDistanceUpToThree(u[..2], v[..2]);
    }
  }

  /** Punctured positions add no penalty. */
  lemma SpreadPenalty(y: seq<int>, i: nat, e: seq<bool>)
    requires Offset(i + 1) <= |y| && |e| == 3
    ensures SoftDistance(y[Offset(i)..Offset(i + 1)], e[..KeepCount(i)]) == SpeechMetric(e, Spread(y, i))
  {
    var o, n := Offset(i), KeepCount(i);
    assert Offset(i + 1) == o + n;
    SoftDistanceUpToThree(y[o..o + n], e[..n]);
    SpreadMetric(y, o, n, e, Spread(y, i));
  }

  lemma SpreadMetric(y: seq<int>, o: nat, n: nat, e: seq<bool>, r: seq<int>)
    requires o + n <= |y| && 1 <= n <= 3 == |e|
    requires r == [y[o], if n >= 2 then y[o + 1] else 0, if n >= 3 then y[o + 2] else 0]
    ensures SpeechMetric(e, r) == SoftPenalty(e[0], y[o]) + (if n >= 2 then SoftPenalty(e[1], y[o + 1]) else 0)
                                  + if n >= 3 then SoftPenalty(e[2], y[o + 2]) else 0
  {
  }

  lemma PrefixSplit(y: seq<int>, a: nat, b: nat)
    requires a <= b <= |y|
    ensures y[..b] == y[..a] + y[a..b]
  {
  }

  lemma {:induction false} CostIsSpeechDistance(y: seq<int>, n: nat, x: seq<bool>)
    requires Offset(n) <= |y| && |x| <= n
    ensures Offset(|x|) <= |y|
    ensures Cost(SpeechTable(y, n), x) == SoftDistance(y[..Offset(|x|)], SpeechCodeword(x))
  {
    OffsetMonotone(|x|, n);
    if |x| > 0 {
      var i := |x| - 1;
      var e := SpeechOutputs(Register(x));
      CostIsSpeechDistance(y, n, x[..i]);
      SpeechTableAt(y, n, i);
      SpreadPenalty(y, i, e);
      SoftDistanceAppend(y[..Offset(i)], SpeechCodeword(x[..i]), y[Offset(i)..Offset(i + 1)], e[..KeepCount(i)]);
      PrefixSplit(y, Offset(i), Offset(i + 1));
    }
  }

  // ---- What the speech decoder guarantees ----

  /** The bits that the decoder makes of received class 1 and class 2 values. */
  function SpeechDecoded(y: seq<int>, n: nat): (x: seq<bool>)
    requires Offset(n) <= |y|
    ensures |x| == n
  {
    Decode(SpeechTable(y, n))
  }

  lemma SpeechDecodedIsNearest(y: seq<int>, z: seq<bool>)
    requires |y| == Offset(|z|) && Terminated(z)
    ensures Terminated(SpeechDecoded(y, |z|))
    ensures SoftDistance(y, SpeechCodeword(SpeechDecoded(y, |z|))) <= SoftDistance(y, SpeechCodeword(z))
  {
    DecodeIsOptimal(SpeechTable(y, |z|));
    WholeCost(y, SpeechDecoded(y, |z|));
    WholeCost(y, z);
  }

  lemma WholeCost(y: seq<int>, x: seq<bool>)
    requires |y| == Offset(|x|)
    ensures Cost(SpeechTable(y, |x|), x) == SoftDistance(y, SpeechCodeword(x))
  {
    CostIsSpeechDistance(y, |x|, x);
    assert y[..|y|] == y;
  }

  // ---- Corrected errors ----

  lemma {:induction false} CodewordPrefix(x: seq<bool>, n: nat)
    requires n <= |x|
    ensures Offset(n) <= Offset(|x|)
    ensures SpeechCodeword(x)[..Offset(n)] == SpeechCodeword(x[..n])
  {
    OffsetMonotone(n, |x|);
    if n < |x| {
      CodewordPrefix(x[..|x| - 1], n);
      assert x[..|x| - 1][..n] == x[..n];
    } else {
      assert x[..n] == x;
    }
  }

  /** The codeword bits of step i are the first outputs of its register. */
  lemma CodewordOfStep(x: seq<bool>, i: nat, j: nat, m: nat)
    requires j == i + 1 <= |x| && m < KeepCount(i)
    ensures Offset(i) + m < Offset(|x|) && SpeechCodeword(x)[Offset(i) + m] == SpeechOutputs(RegisterAt(x, i))[m]
  {
    CodewordPrefix(x, j);
    CodewordStep(x, i, j);
    assert Offset(j) == Offset(i) + KeepCount(i);
    assert SpeechCodeword(x)[Offset(i) + m] == SpeechCodeword(x)[..Offset(j)][Offset(i) + m];
  }

  lemma SplitDistance(u: seq<bool>, v: seq<bool>, n: nat)
    requires n <= |u| == |v|
    ensures Distance(u, v) == Distance(u[..n], v[..n]) + Distance(u[n..], v[n..])
  {
    DistanceAppend(u[..n], v[..n], u[n..], v[n..]);
    assert u == u[..n] + u[n..] && v == v[..n] + v[n..];
  }

  lemma {:induction false} EqualHasNoDistance(u: seq<bool>, v: seq<bool>)
    requires |u| == |v| && Distance(u, v) == 0
    ensures u == v
  {
    if |u| > 0 {
      var n := |u| - 1;
      EqualHasNoDistance(u[..n], v[..n]);
      assert u == u[..n] + [u[n]] && v == v[..n] + [v[n]];
    }
  }

  lemma {:induction false} SelfDistance(s: seq<bool>)
    ensures Distance(s, s) == 0
  {
    if |s| > 0 {
      SelfDistance(s[..|s| - 1]);
    }
  }

  /** Two codewords whose class-weighted distance is at least 20 are told apart by y. */
  lemma NearestByClass(y: seq<bool>, c: seq<bool>, e: seq<bool>, n: nat)
    requires n <= |y| == |c| == |e|
    requires Distance(y[..n], c[..n]) <= 1 && Distance(y, c) <= 2
    requires var d1, d := Distance(c[..n], e[..n]), Distance(c, e); d1 <= d && 5 * d1 + 4 * (d - d1) >= 20
    ensures Distance(y, e) > Distance(y, c)
  {
    SplitDistance(y, c, n);
    SplitDistance(y, e, n);
    SplitDistance(c, e, n);
    DistanceSymmetric(y, c);
    DistanceSymmetric(y[..n], c[..n]);
    if Distance(c[n..], e[n..]) == 0 {
      EqualHasNoDistance(c[n..], e[n..]);
      DistanceTriangle(c[..n], y[..n], e[..n]);
    } else {
      DistanceTriangle(c, y, e);
    }
  }

  /** The minimum distance by class, in terms of whole codewords. */
  lemma CodewordsApart(x: seq<bool>, z: seq<bool>, n: nat)
    requires |x| == |z| >= CLASS1_BITS && Terminated(x) && Terminated(z) && x != z && n == Offset(CLASS1_BITS)
    ensures n <= Offset(|x|)
    ensures var c, e := SpeechCodeword(x), SpeechCodeword(z);
            var d1, d := Distance(c[..n], e[..n]), Distance(c, e);
            d1 <= d && 5 * d1 + 4 * (d - d1) >= 20
  {
    SpeechMinimumDistance(x, z);
    CodewordPrefixDistance(x, z, CLASS1_BITS, n);
    assert x[..|x|] == x && z[..|z|] == z;
  }

  lemma CodewordPrefixDistance(x: seq<bool>, z: seq<bool>, k: nat, n: nat)
    requires k <= |x| == |z| && n == Offset(k)
    ensures n <= Offset(|x|) && Distance(SpeechCodeword(x)[..n], SpeechCodeword(z)[..n]) == PrefixCodeDistance(x, z, k)
  {
    CodewordPrefix(x, k);
    CodewordPrefix(z, k);
  }

  lemma HardSpeechNearest(y: seq<bool>, x: seq<bool>)
    requires |y| == Offset(|x|) && Terminated(x)
    ensures var z := SpeechDecoded(SoftBits(y, 1), |x|);
            Terminated(z) && Distance(y, SpeechCodeword(z)) <= Distance(y, SpeechCodeword(x))
  {
    SpeechDecodedIsNearest(SoftBits(y, 1), x);
    UnitSoftDistance(y, SpeechCodeword(x));
    UnitSoftDistance(y, SpeechCodeword(SpeechDecoded(SoftBits(y, 1), |x|)));
  }

  /**
   * Unequal protection: up to two wrong coded bits, at most one of them in class 1, are corrected.
   */
  lemma SpeechCorrects(y: seq<bool>, x: seq<bool>, n: nat)
    requires |x| >= CLASS1_BITS && Terminated(x) && |y| == Offset(|x|) && n == Offset(CLASS1_BITS) <= |y|
    requires Distance(y, SpeechCodeword(x)) <= 2 && Distance(y[..n], SpeechCodeword(x)[..n]) <= 1
    ensures SpeechDecoded(SoftBits(y, 1), |x|) == x
  {
    HardSpeechNearest(y, x);
    var z := SpeechDecoded(SoftBits(y, 1), |x|);
    if z != x {
      CodewordsApart(x, z, n);
      NearestByClass(y, SpeechCodeword(x), SpeechCodeword(z), n);
    }
  }

  /** The soft decoder tolerates weak values as in the control channels. */
  lemma SpeechSoftCorrects(y: seq<int>, x: seq<bool>, m: nat, most: nat)
    requires |x| >= CLASS1_BITS && Terminated(x) && |y| == Offset(|x|)
    requires WeakAtMost(y, SpeechCodeword(x), m, most)
    requires (m + most) * WeakCount(y, SpeechCodeword(x), m) < 4 * m
    ensures SpeechDecoded(y, |x|) == x
  {
    var z := SpeechDecoded(y, |x|);
    SpeechDecodedIsNearest(y, x);
    if z != x {
      FourApart(x, z);
      SoftDistanceGap(y, SpeechCodeword(x), SpeechCodeword(z), m, most);
      ProductMonotone(m, 4, Distance(SpeechCodeword(x), SpeechCodeword(z)));
    }
  }

  lemma FourApart(x: seq<bool>, z: seq<bool>)
    requires |x| == |z| >= CLASS1_BITS && Terminated(x) && Terminated(z) && x != z
    ensures Distance(SpeechCodeword(x), SpeechCodeword(z)) >= 4
  {
    SpeechMinimumDistance(x, z);
    assert x[..|x|] == x && z[..|z|] == z;
  }
}
