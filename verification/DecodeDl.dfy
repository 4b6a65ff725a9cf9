/**
 * The downlink analysis script's formulations of the decoder stages, proved equal to the ones the
 * C codec uses.
 */
module DecodeDl {
  import opened Wrappers
  import opened BitSeq
  import opened Trellis
  import opened ConvCode
  import opened BranchMetrics
  import opened Viterbi
  import opened Scrambler

  /** Metric of a state that has not been reached in the maximising decoder. */
  const NINF: int := -1000000000000000000

  // ---- Scrambling sequence ----

  /** The script's sequence of a number of scrambling bits is the keystream; init is masked to 32 bits. */
  method ScramblerSeq(init: bv32, length: nat) returns (out: seq<bool>)
    ensures out == Keystream(Start(init), length)
  {
    var lfsr := init;
    if lfsr == 0 {
      lfsr := 0xFFFFFFFF;
    }
    out := [];
    ghost var start := Start(init);
    for i := 0 to length
      invariant lfsr == StateAt(start, i) && out == Keystream(start, i)
    {
      var b;
      b, lfsr := NextLfsrBit(lfsr);
      out := out + [b == 1];
    }
  }

  // ---- Depuncturing by a position table ----

  /** Zero-based mother position of received bit j: eight per group of three, at 0, 1 and 4. */
  function MotherPosition(j: nat): nat {
    8 * (j / 3) + [0, 1, 4][j % 3]
  }

  lemma PositionsOfGroup(q: nat)
    ensures MotherPosition(3 * q) == 8 * q && MotherPosition(3 * q + 1) == 8 * q + 1
    ensures MotherPosition(3 * q + 2) == 8 * q + 4
  {
    assert (3 * q) / 3 == q && (3 * q + 1) / 3 == q && (3 * q + 2) / 3 == q;
  }

  /** The eight cells of group q hold its three received values and five erasures. */
  ghost predicate GroupPlaced<T>(c: seq<T>, q: nat, erased: T, out: seq<T>)
    requires 3 * q + 3 <= |c| && 8 * q + 8 <= |out|
  {
    && out[8 * q] == c[3 * q] && out[8 * q + 1] == c[3 * q + 1] && out[8 * q + 4] == c[3 * q + 2]
    && out[8 * q + 2] == out[8 * q + 3] == out[8 * q + 5] == out[8 * q + 6] == out[8 * q + 7] == erased
  }

  lemma {:induction false} DepunctureByGroups<T>(c: seq<T>, p: nat, erased: T, out: seq<T>)
    requires 3 * p <= |c| && 8 * p <= |out|
    requires forall q :: 0 <= q < p ==> GroupPlaced(c, q, erased, out)
    ensures out[..8 * p] == Depuncture(c, p, erased)
  {
    if p > 0 {
      var q := p - 1;
      DepunctureByGroups(c, q, erased, out);
      assert GroupPlaced(c, q, erased, out);
      assert out[..8 * p] == out[..8 * q] + [c[3 * q], c[3 * q + 1], erased, erased, c[3 * q + 2], erased, erased, erased];
    }
  }

  lemma PositionInjective(j: nat, k: nat)
    requires MotherPosition(j) == MotherPosition(k)
    ensures j == k
  {
    assert MotherPosition(j) / 8 == j / 3 && MotherPosition(k) / 8 == k / 3;
  }

  lemma PositionKept(j: nat, q: nat, r: nat)
    requires r in {2, 3, 5, 6, 7}
    ensures MotherPosition(j) != 8 * q + r
  {
    assert (8 * q + r) / 8 == q && MotherPosition(j) / 8 == j / 3;
  }

  lemma PositionBelow(j: nat, p: nat)
    requires j < 3 * p
    ensures MotherPosition(j) < 8 * p
  {
    assert j / 3 < p;
  }

  /** Fills with the erasure value, then places received value j at its mother position. */
  method DepunctureTable<T>(bits: seq<T>, p: nat, erased: T, out: array<T>)
    requires |bits| == 3 * p && out.Length == 8 * p
    modifies out
    ensures out[..] == Depuncture(bits, p, erased)
  {
    for i := 0 to out.Length
      invariant forall k :: 0 <= k < i ==> out[k] == erased
    {
      out[i] := erased;
    }
    for j := 0 to |bits|
      invariant forall l :: 0 <= l < j ==> MotherPosition(l) < 8 * p && out[MotherPosition(l)] == bits[l]
      invariant forall q :: 0 <= q < p ==> out[8 * q + 2] == out[8 * q + 3] == out[8 * q + 5] == out[8 * q + 6]
                                           == out[8 * q + 7] == erased
    {
      PositionBelow(j, p);
      var k := MotherPosition(j);
      forall l | 0 <= l < j
        ensures MotherPosition(l) != k
      {
        if MotherPosition(l) == k {
          PositionInjective(l, j);
        }
      }
      forall q | 0 <= q < p
        ensures k != 8 * q + 2 && k != 8 * q + 3 && k != 8 * q + 5 && k != 8 * q + 6 && k != 8 * q + 7
      {
        PositionKept(j, q, 2);
        PositionKept(j, q, 3);
        PositionKept(j, q, 5);
        PositionKept(j, q, 6);
        PositionKept(j, q, 7);
      }
      out[k] := bits[j];
    }
    forall q | 0 <= q < p
      ensures GroupPlaced(bits, q, erased, out[..])
    {
      PositionsOfGroup(q);
    }
    DepunctureByGroups(bits, p, erased, out[..]);
    assert out[..8 * p] == out[..];
  }

  // ---- Maximum-correlation Viterbi ----

  function Negated(r: seq<int>): (s: seq<int>)
    ensures |s| == |r|
  {
    seq(|r|, i requires 0 <= i < |r| => -r[i])
  }

  /** r * (1 - 2 * e): positive values vote for 0. */
  function Correlation(e: bool, r: int): int {
    if e then -r else r
  }

  /** Correlation is the magnitude less twice the penalty of the negated value. */
  lemma CorrelationIsPenalty(e: bool, r: int, s: int)
    requires s == -r
    ensures Correlation(e, r) == Abs(s) - 2 * SoftPenalty(e, s)
  {
  }

  function QuadMagnitude(s: seq<int>): nat
    requires |s| == 4
  {
    Abs(s[0]) + Abs(s[1]) + Abs(s[2]) + Abs(s[3])
  }

  /** Summed correlation of four received values with four expected bits. */
  function FourCorrelations(e: seq<bool>, rx: seq<int>): int
    requires |e| == |rx| == 4
  {
    Correlation(e[0], rx[0]) + Correlation(e[1], rx[1]) + Correlation(e[2], rx[2]) + Correlation(e[3], rx[3])
  }

  lemma CorrelationIsMetric(e: seq<bool>, rx: seq<int>)
    requires |e| == |rx| == 4
    ensures FourCorrelations(e, rx) == QuadMagnitude(Negated(rx)) - 2 * SoftMetric(e, Negated(rx))
  {
    var s := Negated(rx);
    CorrelationIsPenalty(e[0], rx[0], s[0]);
    CorrelationIsPenalty(e[1], rx[1], s[1]);
    CorrelationIsPenalty(e[2], rx[2], s[2]);
    CorrelationIsPenalty(e[3], rx[3], s[3]);
    AddEquations(Correlation(e[0], rx[0]), Abs(s[0]), SoftPenalty(e[0], s[0]),
                 Correlation(e[1], rx[1]), Abs(s[1]), SoftPenalty(e[1], s[1]),
                 Correlation(e[2], rx[2]), Abs(s[2]), SoftPenalty(e[2], s[2]),
                 Correlation(e[3], rx[3]), Abs(s[3]), SoftPenalty(e[3], s[3]));
  }

  lemma AddEquations(c0: int, m0: int, p0: int, c1: int, m1: int, p1: int,
                     c2: int, m2: int, p2: int, c3: int, m3: int, p3: int)
    requires c0 == m0 - 2 * p0 && c1 == m1 - 2 * p1 && c2 == m2 - 2 * p2 && c3 == m3 - 2 * p3
    ensures c0 + c1 + c2 + c3 == m0 + m1 + m2 + m3 - 2 * (p0 + p1 + p2 + p3)
  {
  }

  method CorrelationRow(rx: seq<int>) returns (row: seq<int>)
    requires |rx| == 4
    ensures |row| == 32
    ensures forall sr :: 0 <= sr < 32 ==> row[sr] == QuadMagnitude(Negated(rx)) - 2 * SoftRow(Negated(rx))[sr]
  {
    row := seq(32, sr requires 0 <= sr < 32 => FourCorrelations(Outputs(sr), rx));
    forall sr | 0 <= sr < 32
      ensures row[sr] == QuadMagnitude(Negated(rx)) - 2 * SoftRow(Negated(rx))[sr]
    {
      CorrelationIsMetric(Outputs(sr), rx);
    }
  }

  /** What the maximising metric array holds: total magnitude less twice the penalty. */
  function HeldMax(m: Option<int>, magnitude: nat): int {
    match m
    case None => NINF
    case Some(v) => magnitude - 2 * v
  }

  ghost predicate HoldsCorrelations(pm: array<int>, w: seq<Row>, i: nat, magnitude: nat)
    requires pm.Length == 16 && i <= |w|
    reads pm
  {
    forall s :: 0 <= s < 16 ==> pm[s] == HeldMax(Best(w, i, s), magnitude)
  }

  ghost predicate HoldsMaxSurvivor(pmNew: array<int>, tbState: array<int>, tbInput: array<bool>,
                                   w: seq<Row>, i: nat, s: nat, t: nat, magnitude: nat)
    requires i < |w| && s < 16 && pmNew.Length == 16 && tbState.Length == tbInput.Length == 16 * |w|
    reads pmNew, tbState, tbInput
  {
    && pmNew[s] == HeldMax(Partial(w, i, s, t), magnitude)
    && (Partial(w, i, s, t).Some? ==>
          tbState[16 * i + s] == PartialPredecessor(w, i, s, t) && tbInput[16 * i + s] == (s % 2 == 1))
  }

  ghost predicate HoldsMaxPartial(pmNew: array<int>, tbState: array<int>, tbInput: array<bool>,
                                  w: seq<Row>, i: nat, t: nat, magnitude: nat)
    requires i < |w| && pmNew.Length == 16 && tbState.Length == tbInput.Length == 16 * |w|
    reads pmNew, tbState, tbInput
  {
    forall s :: 0 <= s < 16 ==> HoldsMaxSurvivor(pmNew, tbState, tbInput, w, i, s, t, magnitude)
  }

  /** Path metrics before and after step i are at most the magnitudes received. */
  ghost predicate Within(w: seq<Row>, i: nat, before: nat, after: nat)
    requires i < |w|
  {
    && (forall s :: 0 <= s < 16 && Best(w, i, s).Some? ==> 0 <= Best(w, i, s).value <= before)
    && (forall sr :: 0 <= sr < 32 && Candidate(w, i, sr).Some? ==> 0 <= Candidate(w, i, sr).value <= after)
  }

  lemma CappedWithin(w: seq<Row>, cap: seq<int>, i: nat, j: nat, before: nat, after: nat)
    requires j == i + 1 <= |w| && CappedBy(w, cap) && before == Sum(cap, i) && after == Sum(cap, j)
    ensures Within(w, i, before, after)
  {
    forall sr | 0 <= sr < 32
      ensures Candidate(w, i, sr).Some? ==> 0 <= Candidate(w, i, sr).value <= after
    {
      CandidateCap(w, cap, i, sr);
    }
    forall s | 0 <= s < 16
      ensures Best(w, i, s).Some? ==> 0 <= Best(w, i, s).value <= before
    {
      if i > 0 {
        CandidateCap(w, cap, i - 1, s);
        CandidateCap(w, cap, i - 1, s + 16);
      }
    }
  }

  lemma PenaltiesWithin(soft: seq<int>, n: nat, i: nat, w: seq<Row>)
    requires i < n && 4 * n <= |soft| && w == SoftTable(soft, n)
    ensures Within(w, i, Magnitude(soft, 4 * i), Magnitude(soft, 4 * (i + 1)))
  {
    QuadSum(soft, n, i);
    QuadSum(soft, n, i + 1);
    SoftCapped(soft, n);
    CappedWithin(w, QuadMagnitudes(soft, n), i, i + 1, Magnitude(soft, 4 * i), Magnitude(soft, 4 * (i + 1)));
  }

  /** Tries register value sr with a metric; keeps it if it is strictly larger than the survivor's. */
  method TryRegister(ghost w: seq<Row>, i: nat, sr: nat, metric: int, ghost magnitude: nat,
                     pmNew: array<int>, tbState: array<int>, tbInput: array<bool>)
    requires i < |w| && sr < 32 && Candidate(w, i, sr).Some? && metric == magnitude - 2 * Candidate(w, i, sr).value > NINF
    requires pmNew.Length == 16 && tbState.Length == tbInput.Length == 16 * |w| && pmNew != tbState
    requires HoldsMaxPartial(pmNew, tbState, tbInput, w, i, sr, magnitude) && HoldsTraceback(tbState, tbInput, w, i)
    modifies pmNew, tbState, tbInput
    ensures HoldsMaxPartial(pmNew, tbState, tbInput, w, i, sr + 1, magnitude)
    ensures HoldsTraceback(tbState, tbInput, w, i)
  {
    var newState := sr % 16;
    if metric > pmNew[newState] {
      pmNew[newState] := metric;
      tbState[16 * i + newState] := sr / 2;
      tbInput[16 * i + newState] := sr % 2 == 1;
    }
    ghost var next := sr + 1;
    forall s | 0 <= s < 16
      ensures HoldsMaxSurvivor(pmNew, tbState, tbInput, w, i, s, next, magnitude)
    {
      assert old(HoldsMaxSurvivor(pmNew, tbState, tbInput, w, i, s, sr, magnitude));
      PartialStep(w, i, s, sr);
    }
  }

  /** One step of the maximising decoder makes the decisions of the minimising one. */
  method CorrelationStep(ghost w: seq<Row>, i: nat, row: seq<int>, ghost before: nat, ghost after: nat,
                         pm: array<int>, pmNew: array<int>, tbState: array<int>, tbInput: array<bool>)
    requires i < |w| && |row| == 32 && before <= after < -NINF && Within(w, i, before, after)
    requires forall sr :: 0 <= sr < 32 ==> row[sr] == after - before - 2 * w[i][sr]
    requires pm.Length == pmNew.Length == 16 && tbState.Length == tbInput.Length == 16 * |w|
    requires pm != pmNew && pm != tbState && pmNew != tbState
    requires HoldsCorrelations(pm, w, i, before) && HoldsTraceback(tbState, tbInput, w, i)
    modifies pmNew, tbState, tbInput
    ensures HoldsCorrelations(pmNew, w, i + 1, after) && HoldsTraceback(tbState, tbInput, w, i + 1)
  {
    for s := 0 to 16
      invariant forall r :: 0 <= r < s ==> pmNew[r] == NINF
      invariant HoldsTraceback(tbState, tbInput, w, i)
    {
      pmNew[s] := NINF;
    }
    for oldState := 0 to 16
      invariant HoldsCorrelations(pm, w, i, before)
      invariant HoldsTraceback(tbState, tbInput, w, i)
      invariant HoldsMaxPartial(pmNew, tbState, tbInput, w, i, 2 * oldState, after)
    {
      assert Best(w, i, oldState).Some? ==> 0 <= Best(w, i, oldState).value <= before;
      if pm[oldState] <= NINF {
        SkipMaxState(pmNew, tbState, tbInput, w, i, oldState, after);
        continue;
      }
      for inp := 0 to 2
        invariant HoldsCorrelations(pm, w, i, before)
        invariant HoldsTraceback(tbState, tbInput, w, i)
        invariant HoldsMaxPartial(pmNew, tbState, tbInput, w, i, 2 * oldState + inp, after)
      {
        var sr := 2 * oldState + inp;
        TryRegister(w, i, sr, pm[oldState] + row[sr], after, pmNew, tbState, tbInput);
      }
    }
    MaxRowComplete(pmNew, tbState, tbInput, w, i, after);
  }

  lemma SkipMaxState(pmNew: array<int>, tbState: array<int>, tbInput: array<bool>, w: seq<Row>, i: nat, o: nat,
                     magnitude: nat)
    requires i < |w| && pmNew.Length == 16 && tbState.Length == tbInput.Length == 16 * |w|
    requires o < 16 && Best(w, i, o).None?
    requires HoldsMaxPartial(pmNew, tbState, tbInput, w, i, 2 * o, magnitude)
    ensures HoldsMaxPartial(pmNew, tbState, tbInput, w, i, 2 * o + 2, magnitude)
  {
    var next := 2 * o + 2;
    forall s | 0 <= s < 16
      ensures HoldsMaxSurvivor(pmNew, tbState, tbInput, w, i, s, next, magnitude)
    {
      assert HoldsMaxSurvivor(pmNew, tbState, tbInput, w, i, s, 2 * o, magnitude);
      assert Candidate(w, i, 2 * o).None? && Candidate(w, i, 2 * o + 1).None?;
      PartialStep(w, i, s, 2 * o);
      PartialStep(w, i, s, 2 * o + 1);
    }
  }

  lemma MaxRowComplete(pmNew: array<int>, tbState: array<int>, tbInput: array<bool>, w: seq<Row>, i: nat, magnitude: nat)
    requires i < |w| && pmNew.Length == 16 && tbState.Length == tbInput.Length == 16 * |w|
    requires HoldsMaxPartial(pmNew, tbState, tbInput, w, i, 32, magnitude) && HoldsTraceback(tbState, tbInput, w, i)
    ensures HoldsCorrelations(pmNew, w, i + 1, magnitude) && HoldsTraceback(tbState, tbInput, w, i + 1)
  {
    forall s | 0 <= s < 16
      ensures pmNew[s] == HeldMax(Best(w, i + 1, s), magnitude)
    {
      assert HoldsMaxSurvivor(pmNew, tbState, tbInput, w, i, s, 32, magnitude);
    }
    forall j, s | 0 <= j < i + 1 && 0 <= s < 16 && Best(w, j + 1, s).Some?
      ensures tbState[16 * j + s] == Predecessor(w, j, s) && tbInput[16 * j + s] == (s % 2 == 1)
    {
      if j == i {
        assert HoldsMaxSurvivor(pmNew, tbState, tbInput, w, i, s, 32, magnitude);
      }
    }
  }

  method StartCorrelations(ghost w: seq<Row>) returns (pm: array<int>)
    ensures fresh(pm) && pm.Length == 16 && HoldsCorrelations(pm, w, 0, 0)
  {
    pm := new int[16];
    for s := 0 to 16
      invariant forall r :: 0 <= r < s ==> pm[r] == if r == 0 then 0 else NINF
    {
      pm[s] := if s == 0 then 0 else NINF;
    }
  }

  lemma RowOfNegated(coded: seq<int>, n: nat, i: nat)
    requires 4 * n <= |coded| && i < n
    ensures SoftTable(Negated(coded), n)[i] == SoftRow(Negated(coded[4 * i..4 * i + 4]))
    ensures Magnitude(Negated(coded), 4 * i + 4)
            == Magnitude(Negated(coded), 4 * i) + QuadMagnitude(Negated(coded[4 * i..4 * i + 4]))
  {
    assert Negated(coded)[4 * i..4 * i + 4] == Negated(coded[4 * i..4 * i + 4]);
    MagnitudeOfFour(Negated(coded), i);
  }

  lemma {:induction false} MagnitudeMonotone(s: seq<int>, i: nat, n: nat)
    requires i <= n <= |s|
    ensures Magnitude(s, i) <= Magnitude(s, n)
  {
    if i < n {
      MagnitudeMonotone(s, i, n - 1);
    }
  }

  /**
   * The script's decoder maximises correlation with positive values meaning 0. On any received
   * values it returns the bits that the minimum-penalty decoder returns on their negation.
   */
  method ViterbiMaxCorrelation(coded: seq<int>, n: nat, decoded: array<bool>)
    requires 4 * n <= |coded| && decoded.Length >= n && Magnitude(Negated(coded), 4 * n) < -NINF
    modifies decoded
    ensures decoded[..n] == Decode(SoftTable(Negated(coded), n))
    ensures decoded[n..] == old(decoded[n..])
  {
    var tbState, tbInput := ForwardCorrelations(coded, n, SoftTable(Negated(coded), n));
    Traceback(SoftTable(Negated(coded), n), n, tbState, tbInput, decoded);
  }

  /** The forward pass. */
  method ForwardCorrelations(coded: seq<int>, n: nat, ghost w: seq<Row>) returns (tbState: array<int>, tbInput: array<bool>)
    requires 4 * n <= |coded| && w == SoftTable(Negated(coded), n)
    requires Magnitude(Negated(coded), 4 * n) < -NINF
    ensures fresh(tbState) && fresh(tbInput) && tbState.Length == tbInput.Length == 16 * n
    ensures HoldsTraceback(tbState, tbInput, w, n)
  {
    tbState, tbInput := new int[16 * n], new bool[16 * n];
    var pm := StartCorrelations(w);
    for i := 0 to n
      invariant fresh(pm) && pm.Length == 16 && tbState != pm
      invariant HoldsCorrelations(pm, w, i, Magnitude(Negated(coded), 4 * i)) && HoldsTraceback(tbState, tbInput, w, i)
    {
      pm := CorrelationRound(coded, n, w, i, pm, tbState, tbInput);
    }
  }

  /** One round of the decoder's main loop. */
  method CorrelationRound(coded: seq<int>, ghost n: nat, ghost w: seq<Row>, i: nat, pm: array<int>,
                          tbState: array<int>, tbInput: array<bool>)
    returns (pmNew: array<int>)
    requires i < n && 4 * n <= |coded| && w == SoftTable(Negated(coded), n)
    requires Magnitude(Negated(coded), 4 * n) < -NINF
    requires pm.Length == 16 && tbState.Length == tbInput.Length == 16 * n && pm != tbState
    requires HoldsCorrelations(pm, w, i, Magnitude(Negated(coded), 4 * i)) && HoldsTraceback(tbState, tbInput, w, i)
    modifies tbState, tbInput
    ensures fresh(pmNew) && pmNew.Length == 16
    ensures HoldsCorrelations(pmNew, w, i + 1, Magnitude(Negated(coded), 4 * (i + 1)))
    ensures HoldsTraceback(tbState, tbInput, w, i + 1)
  {
    ghost var before, after := Magnitude(Negated(coded), 4 * i), Magnitude(Negated(coded), 4 * (i + 1));
    RoundMagnitudes(coded, n, i, before, after);
    PenaltiesWithin(Negated(coded), n, i, w);
    var row := CorrelationRow(coded[4 * i..4 * i + 4]);
    pmNew := new int[16];
    CorrelationStep(w, i, row, before, after, pm, pmNew, tbState, tbInput);
  }

  lemma RoundMagnitudes(coded: seq<int>, n: nat, i: nat, before: nat, after: nat)
    requires i < n && 4 * n <= |coded| && Magnitude(Negated(coded), 4 * n) < -NINF
    requires before == Magnitude(Negated(coded), 4 * i) && after == Magnitude(Negated(coded), 4 * (i + 1))
    ensures before <= after < -NINF && after - before == QuadMagnitude(Negated(coded[4 * i..4 * i + 4]))
    ensures SoftTable(Negated(coded), n)[i] == SoftRow(Negated(coded[4 * i..4 * i + 4]))
  {
    RowOfNegated(coded, n, i);
    MagnitudeMonotone(Negated(coded), 4 * i, 4 * (i + 1));
    MagnitudeMonotone(Negated(coded), 4 * (i + 1), 4 * n);
  }
}
