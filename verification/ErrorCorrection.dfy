/** What the Viterbi decoders guarantee for a codeword received with errors. */
module ErrorCorrection {
  import opened BitSeq
  import opened Trellis
  import opened ConvCode
  import opened BranchMetrics
  import opened CodeDistance

  lemma TerminatedTaps(x: seq<bool>)
    ensures Terminated(x) <==> !Tap(x, 0) && !Tap(x, 1) && !Tap(x, 2) && !Tap(x, 3)
  {
    RegisterHoldsTaps(x);
  }

  lemma XorTerminated(x: seq<bool>, y: seq<bool>)
    requires |x| == |y| && Terminated(x) && Terminated(y)
    ensures Terminated(Xor(x, y))
  {
    TerminatedTaps(x);
    TerminatedTaps(y);
    TerminatedTaps(Xor(x, y));
    XorTaps(x, y);
  }

  /** Codewords of different terminated messages differ in at least four positions. */
  lemma MinimumDistance(x: seq<bool>, y: seq<bool>, p: nat)
    requires |x| == |y| == 2 * p && Terminated(x) && Terminated(y) && x != y
    ensures Distance(Codeword(x, p), Codeword(y, p)) >= 4
  {
    var e := Xor(x, y);
    XorTerminated(x, y);
    assert exists j :: 0 <= j < |e| && e[j] by {
      var j :| 0 <= j < |x| && x[j] != y[j];
      assert e[j];
    }
    CodewordDistance(x, y, p);
    WeightIsAtLeastFour(e);
  }

  /** x and y differ only within twelve consecutive positions. */
  ghost predicate DifferLocally(x: seq<bool>, y: seq<bool>)
    requires |x| == |y|
  {
    forall i, j :: 0 <= i <= j < |x| && x[i] != y[i] && x[j] != y[j] ==> j - i < 12
  }

  /** Terminated messages with codewords at distance 6 or less differ only in a short window. */
  lemma CloseCodewordsDifferLocally(x: seq<bool>, y: seq<bool>, p: nat)
    requires |x| == |y| == 2 * p && Terminated(x) && Terminated(y)
    requires Distance(Codeword(x, p), Codeword(y, p)) <= 6
    ensures DifferLocally(x, y)
  {
    var e := Xor(x, y);
    XorTerminated(x, y);
    CodewordDistance(x, y, p);
    forall i, j | 0 <= i <= j < |x| && x[i] != y[i] && x[j] != y[j]
      ensures j - i < 12
    {
      LightPathIsShort(e, i, j);
    }
  }

  /** With f wrong bits the decoder's answer has a codeword at distance at most 2 * f from the sent one. */
  lemma DecodedIsClose(y: seq<bool>, p: nat, x: seq<bool>)
    requires |y| == 3 * p && |x| == 2 * p && Terminated(x)
    ensures Terminated(HardDecoded(y, p))
    ensures Distance(Codeword(x, p), Codeword(HardDecoded(y, p), p)) <= 2 * Distance(y, Codeword(x, p))
  {
    var c, d := Codeword(x, p), Codeword(HardDecoded(y, p), p);
    HardDecodedIsNearest(y, p, x);
    DistanceTriangle(c, y, d);
    DistanceSymmetric(c, y);
  }

  /** One wrong bit is always corrected. */
  lemma CorrectsOneError(y: seq<bool>, p: nat, x: seq<bool>)
    requires |y| == 3 * p && |x| == 2 * p && Terminated(x)
    requires Distance(y, Codeword(x, p)) <= 1
    ensures HardDecoded(y, p) == x
  {
    DecodedIsClose(y, p, x);
    if HardDecoded(y, p) != x {
      MinimumDistance(x, HardDecoded(y, p), p);
    }
  }

  /** After up to three wrong bits whatever was decoded is wrong only within twelve positions. */
  lemma ThreeErrorsStayLocal(y: seq<bool>, p: nat, x: seq<bool>)
    requires |y| == 3 * p && |x| == 2 * p && Terminated(x)
    requires Distance(y, Codeword(x, p)) <= 3
    ensures Terminated(HardDecoded(y, p)) && DifferLocally(x, HardDecoded(y, p))
  {
    DecodedIsClose(y, p, x);
    CloseCodewordsDifferLocally(x, HardDecoded(y, p), p);
  }

  // ---- Soft values ----

  /** The soft value s has the sign of bit b and at least magnitude m. */
  predicate Strong(b: bool, s: int, m: nat) {
    if b then s >= m else s + m <= 0
  }

  /** How many soft values are not strong for their bit. */
  function WeakCount(y: seq<int>, c: seq<bool>, m: nat): nat
    requires |y| == |c|
  {
    if |y| == 0 then 0
    else WeakCount(y[..|y| - 1], c[..|c| - 1], m) + if Strong(c[|c| - 1], y[|y| - 1], m) then 0 else 1
  }

  /** Every soft value that is not strong for its bit has at most the given magnitude. */
  ghost predicate WeakAtMost(y: seq<int>, c: seq<bool>, m: nat, most: nat)
    requires |y| == |c|
  {
    forall j :: 0 <= j < |y| && !Strong(c[j], y[j], m) ==> 0 <= y[j] + most && y[j] <= most
  }

  lemma {:induction false} SoftDistanceGap(y: seq<int>, c: seq<bool>, d: seq<bool>, m: nat, most: nat)
    requires |y| == |c| == |d| && WeakAtMost(y, c, m, most)
    ensures SoftDistance(y, d) - SoftDistance(y, c) >= m * Distance(c, d) - (m + most) * WeakCount(y, c, m)
  {
    if |y| > 0 {
      var n := |y| - 1;
      SoftDistanceGap(y[..n], c[..n], d[..n], m, most);
      OnePosition(c[n], d[n], y[n], m, most);
      AddProduct(m, Distance(c[..n], d[..n]), if c[n] == d[n] then 0 else 1);
      AddProduct(m + most, WeakCount(y[..n], c[..n], m), if Strong(c[n], y[n], m) then 0 else 1);
    }
  }

  /** What one position adds to the gap at least. */
  lemma OnePosition(b: bool, e: bool, s: int, m: nat, most: nat)
    requires !Strong(b, s, m) ==> 0 <= s + most && s <= most
    ensures SoftPenalty(e, s) - SoftPenalty(b, s) >= (if b == e then 0 else m) - if Strong(b, s, m) then 0 else m + most
  {
  }

  lemma AddProduct(k: nat, a: nat, b: nat)
    requires b <= 1
    ensures k * (a + b) == k * a + if b == 0 then 0 else k
  {
  }

  /**
   * The soft decoder returns the sent word whenever f positions are arbitrary up to magnitude
   * most, all others are right with magnitude m or more, and (m + most) * f < 4 * m.
   */
  lemma SoftCorrects(y: seq<int>, p: nat, x: seq<bool>, m: nat, most: nat)
    requires |y| == 3 * p && |x| == 2 * p && Terminated(x)
    requires WeakAtMost(y, Codeword(x, p), m, most)
    requires (m + most) * WeakCount(y, Codeword(x, p), m) < 4 * m
    ensures SoftDecoded(y, p) == x
  {
    var z := SoftDecoded(y, p);
    SoftDecodedIsNearest(y, p, x);
    if z != x {
      var c, d := Codeword(x, p), Codeword(z, p);
      MinimumDistance(x, z, p);
      SoftDistanceGap(y, c, d, m, most);
      ProductMonotone(m, 4, Distance(c, d));
    }
  }

  lemma ProductMonotone(m: nat, a: nat, b: nat)
    requires a <= b
    ensures m * a <= m * b
  {
    assert m * b == m * a + m * (b - a);
  }
}
