/** The array-based Viterbi decoders of the rate-1/4 code, proved against the trellis theory. */
module Viterbi {
  import opened Wrappers
  import opened BitSeq
  import opened Trellis
  import opened ConvCode
  import opened BranchMetrics

  /** Path metric of a state that has not been reached; larger than any metric. */
  const INF_M: int := 0x1000_0000

  /** What the metric array holds for a state. */
  function Held(m: Option<int>): int {
    match m
    case None => INF_M
    case Some(v) => v
  }

  /** Every metric stays below INF_M, so no reached state is taken for an unreached one. */
  ghost predicate FitsMetric(w: seq<Row>) {
    forall i, sr :: 0 <= i < |w| && 0 <= sr < 32 && Candidate(w, i, sr).Some? ==> Candidate(w, i, sr).value < INF_M
  }

  lemma BestFits(w: seq<Row>, i: nat, s: nat)
    requires i <= |w| && s < 16 && FitsMetric(w)
    ensures Best(w, i, s).Some? ==> Best(w, i, s).value < INF_M
  {
  }

  /** Survivor into state s at step i once the register values below t have been tried. */
  function Partial(w: seq<Row>, i: nat, s: nat, t: nat): Option<int>
    requires i < |w| && s < 16
  {
    if t <= s then None else if t <= s + 16 then Candidate(w, i, s) else Best(w, i + 1, s)
  }

  function PartialPredecessor(w: seq<Row>, i: nat, s: nat, t: nat): nat
    requires i < |w| && s < 16
  {
    if t <= s + 16 then s / 2 else Predecessor(w, i, s)
  }

  /** How trying register value t changes the survivor into state s. */
  ghost predicate TriesRegister(w: seq<Row>, i: nat, s: nat, t: nat)
    requires i < |w| && s < 16 && t < 32
  {
    var before, after := Partial(w, i, s, t), Partial(w, i, s, t + 1);
    var from, to := PartialPredecessor(w, i, s, t), PartialPredecessor(w, i, s, t + 1);
    if t % 16 == s && Candidate(w, i, t).Some? && (before.None? || Candidate(w, i, t).value < before.value) then
      after == Candidate(w, i, t) && to == t / 2
    else
      after == before && (after.Some? ==> to == from)
  }

  lemma SelectSurvivor(w: seq<Row>, i: nat, s: nat)
    requires i < |w| && s < 16
    ensures Best(w, i + 1, s) == if TakesHigh(w, i, s) then Candidate(w, i, s + 16) else Candidate(w, i, s)
  {
  }

  lemma PartialStep(w: seq<Row>, i: nat, s: nat, t: nat)
    requires i < |w| && s < 16 && t < 32
    ensures TriesRegister(w, i, s, t)
  {
    SelectSurvivor(w, i, s);
    if t != s && t != s + 16 {
      OtherRegister(s, t);
    }
  }

  lemma OtherRegister(s: nat, t: nat)
    requires s < 16 && t < 32 && t != s && t != s + 16
    ensures t % 16 != s
  {
  }

  // ---- Bounds that keep metrics below INF_M ----

  /** Row i only adds costs between 0 and cap[i]. */
  ghost predicate CappedBy(w: seq<Row>, cap: seq<int>) {
    && |w| == |cap|
    && forall i, sr :: 0 <= i < |w| && 0 <= sr < 32 ==> 0 <= w[i][sr] <= cap[i]
  }

  lemma {:induction false} CandidateCap(w: seq<Row>, cap: seq<int>, i: nat, sr: nat)
    requires CappedBy(w, cap) && i < |w| && sr < 32
    ensures Candidate(w, i, sr).Some? ==> 0 <= Candidate(w, i, sr).value <= Sum(cap, i + 1)
    decreases i
  {
    if i > 0 {
      CandidateCap(w, cap, i - 1, sr / 2);
      CandidateCap(w, cap, i - 1, sr / 2 + 16);
    }
  }

  lemma {:induction false} SumMonotone(cap: seq<int>, i: nat, n: nat)
    requires i <= n <= |cap| && forall j :: 0 <= j < |cap| ==> cap[j] >= 0
    ensures Sum(cap, i) <= Sum(cap, n)
  {
    if i < n {
      SumMonotone(cap, i, n - 1);
    }
  }

  lemma CappedFits(w: seq<Row>, cap: seq<int>)
    requires CappedBy(w, cap) && Sum(cap, |w|) < INF_M
    ensures FitsMetric(w)
  {
    forall i, sr | 0 <= i < |w| && 0 <= sr < 32 && Candidate(w, i, sr).Some?
      ensures Candidate(w, i, sr).value < INF_M
    {
      CandidateCap(w, cap, i, sr);
      forall j | 0 <= j < |cap|
        ensures cap[j] >= 0
      {
        assert 0 <= w[j][0] <= cap[j];
      }
      SumMonotone(cap, i + 1, |w|);
    }
  }

  lemma {:induction false} SumOfFours(n: nat, i: nat)
    requires i <= n
    ensures Sum(seq(n, _ => 4), i) == 4 * i
  {
    if i > 0 {
      SumOfFours(n, i - 1);
    }
  }

  /** Hard metrics grow by at most 4 per step. */
  lemma HardFits(coded: seq<Symbol>, n: nat)
    requires 4 * n <= |coded| && 4 * n < INF_M
    ensures FitsMetric(HardTable(coded, n))
  {
    SumOfFours(n, n);
    CappedFits(HardTable(coded, n), seq(n, _ => 4));
  }

  function Abs(s: int): nat {
    if s < 0 then -s else s
  }

  /** Total magnitude of the first n soft values. */
  function Magnitude(soft: seq<int>, n: nat): nat
    requires n <= |soft|
  {
    if n == 0 then 0 else Magnitude(soft, n - 1) + Abs(soft[n - 1])
  }

  function QuadMagnitudes(soft: seq<int>, n: nat): (cap: seq<int>)
    requires 4 * n <= |soft|
    ensures |cap| == n
  {
    seq(n, i requires 0 <= i < n =>
      Abs(soft[4 * i]) + Abs(soft[4 * i + 1]) + Abs(soft[4 * i + 2]) + Abs(soft[4 * i + 3]))
  }

  lemma {:induction false} QuadSum(soft: seq<int>, n: nat, i: nat)
    requires i <= n && 4 * n <= |soft|
    ensures Sum(QuadMagnitudes(soft, n), i) == Magnitude(soft, 4 * i)
  {
    if i > 0 {
      QuadSum(soft, n, i - 1);
      MagnitudeOfFour(soft, i - 1);
    }
  }

  lemma MagnitudeOfFour(soft: seq<int>, i: nat)
    requires 4 * i + 4 <= |soft|
    ensures Magnitude(soft, 4 * i + 4) == Magnitude(soft, 4 * i) + Abs(soft[4 * i]) + Abs(soft[4 * i + 1])
                                          + Abs(soft[4 * i + 2]) + Abs(soft[4 * i + 3])
  {
    assert Magnitude(soft, 4 * i + 2) == Magnitude(soft, 4 * i + 1) + Abs(soft[4 * i + 1]);
    assert Magnitude(soft, 4 * i + 3) == Magnitude(soft, 4 * i + 2) + Abs(soft[4 * i + 2]);
  }

  /** Soft metrics stay below the total magnitude of the input. */
  lemma SoftFits(soft: seq<int>, n: nat)
    requires 4 * n <= |soft| && Magnitude(soft, 4 * n) < INF_M
    ensures FitsMetric(SoftTable(soft, n))
  {
    QuadSum(soft, n, n);
    SoftCapped(soft, n);
    CappedFits(SoftTable(soft, n), QuadMagnitudes(soft, n));
  }

  lemma SoftCapped(soft: seq<int>, n: nat)
    requires 4 * n <= |soft|
    ensures CappedBy(SoftTable(soft, n), QuadMagnitudes(soft, n))
  {
  }

  // ---- One trellis step ----

  /** The metric array holds the path metrics after i steps. */
  ghost predicate HoldsMetrics(pm: array<int>, w: seq<Row>, i: nat)
    requires pm.Length == 16 && i <= |w|
    reads pm
  {
    forall s :: 0 <= s < 16 ==> pm[s] == Held(Best(w, i, s))
  }

  /** Rows below n of the traceback tables are right for every state that is reached. */
  ghost predicate HoldsTraceback(tbState: array<int>, tbInput: array<bool>, w: seq<Row>, n: nat)
    requires n <= |w| && tbState.Length == tbInput.Length == 16 * |w|
    reads tbState, tbInput
  {
    forall i, s :: 0 <= i < n && 0 <= s < 16 && Best(w, i + 1, s).Some? ==>
      tbState[16 * i + s] == Predecessor(w, i, s) && tbInput[16 * i + s] == (s % 2 == 1)
  }

  /** Metric and traceback of the survivor into state s once the register values below t were tried. */
  ghost predicate HoldsSurvivor(pmNew: array<int>, tbState: array<int>, tbInput: array<bool>,
                                w: seq<Row>, i: nat, s: nat, t: nat)
    requires i < |w| && s < 16 && pmNew.Length == 16 && tbState.Length == tbInput.Length == 16 * |w|
    reads pmNew, tbState, tbInput
  {
    && pmNew[s] == Held(Partial(w, i, s, t))
    && (Partial(w, i, s, t).Some? ==>
          tbState[16 * i + s] == PartialPredecessor(w, i, s, t) && tbInput[16 * i + s] == (s % 2 == 1))
  }

  ghost predicate HoldsPartial(pmNew: array<int>, tbState: array<int>, tbInput: array<bool>, w: seq<Row>, i: nat, t: nat)
    requires i < |w| && pmNew.Length == 16 && tbState.Length == tbInput.Length == 16 * |w|
    reads pmNew, tbState, tbInput
  {
    forall s :: 0 <= s < 16 ==> HoldsSurvivor(pmNew, tbState, tbInput, w, i, s, t)
  }

  /** Tries register value sr with a metric; keeps it if it is strictly below the survivor's. */
  method TryRegister(ghost w: seq<Row>, i: nat, sr: nat, metric: int,
                     pmNew: array<int>, tbState: array<int>, tbInput: array<bool>)
    requires i < |w| && sr < 32 && FitsMetric(w) && Candidate(w, i, sr) == Some(metric)
    requires pmNew.Length == 16 && tbState.Length == tbInput.Length == 16 * |w| && pmNew != tbState
    requires HoldsPartial(pmNew, tbState, tbInput, w, i, sr) && HoldsTraceback(tbState, tbInput, w, i)
    modifies pmNew, tbState, tbInput
    ensures HoldsPartial(pmNew, tbState, tbInput, w, i, sr + 1) && HoldsTraceback(tbState, tbInput, w, i)
  {
    var newState := sr % 16;
    if metric < pmNew[newState] {
      pmNew[newState] := metric;
      tbState[16 * i + newState] := sr / 2;
      tbInput[16 * i + newState] := sr % 2 == 1;
    }
    ghost var next := sr + 1;
    forall s | 0 <= s < 16
      ensures HoldsSurvivor(pmNew, tbState, tbInput, w, i, s, next)
    {
      assert old(HoldsSurvivor(pmNew, tbState, tbInput, w, i, s, sr));
      PartialStep(w, i, s, sr);
    }
  }

  /** Add-compare-select for one input bit: row[sr] is the branch metric of register value sr. */
  method TrellisStep(ghost w: seq<Row>, i: nat, row: seq<int>, pm: array<int>, pmNew: array<int>,
                     tbState: array<int>, tbInput: array<bool>)
    requires i < |w| && row == w[i] && FitsMetric(w)
    requires pm.Length == pmNew.Length == 16 && tbState.Length == tbInput.Length == 16 * |w|
    requires pm != pmNew && pm != tbState && pmNew != tbState
    requires HoldsMetrics(pm, w, i) && HoldsTraceback(tbState, tbInput, w, i)
    modifies pmNew, tbState, tbInput
    ensures HoldsMetrics(pmNew, w, i + 1) && HoldsTraceback(tbState, tbInput, w, i + 1)
  {
    for s := 0 to 16
      invariant forall r :: 0 <= r < s ==> pmNew[r] == INF_M
      invariant HoldsTraceback(tbState, tbInput, w, i)
    {
      pmNew[s] := INF_M;
    }
    for oldState := 0 to 16
      invariant HoldsMetrics(pm, w, i)
      invariant HoldsTraceback(tbState, tbInput, w, i)
      invariant HoldsPartial(pmNew, tbState, tbInput, w, i, 2 * oldState)
    {
      BestFits(w, i, oldState);
      if pm[oldState] >= INF_M {
        SkipState(pmNew, tbState, tbInput, w, i, oldState);
        continue;
      }
      for inp := 0 to 2
        invariant HoldsMetrics(pm, w, i)
        invariant HoldsTraceback(tbState, tbInput, w, i)
        invariant HoldsPartial(pmNew, tbState, tbInput, w, i, 2 * oldState + inp)
      {
        var sr := 2 * oldState + inp;
        TryRegister(w, i, sr, pm[oldState] + row[sr], pmNew, tbState, tbInput);
      }
    }
    RowComplete(pmNew, tbState, tbInput, w, i);
  }

  lemma RowComplete(pmNew: array<int>, tbState: array<int>, tbInput: array<bool>, w: seq<Row>, i: nat)
    requires i < |w| && pmNew.Length == 16 && tbState.Length == tbInput.Length == 16 * |w|
    requires HoldsPartial(pmNew, tbState, tbInput, w, i, 32) && HoldsTraceback(tbState, tbInput, w, i)
    ensures HoldsMetrics(pmNew, w, i + 1) && HoldsTraceback(tbState, tbInput, w, i + 1)
  {
    forall s | 0 <= s < 16
      ensures pmNew[s] == Held(Best(w, i + 1, s))
    {
      assert HoldsSurvivor(pmNew, tbState, tbInput, w, i, s, 32);
    }
    forall j, s | 0 <= j < i + 1 && 0 <= s < 16 && Best(w, j + 1, s).Some?
      ensures tbState[16 * j + s] == Predecessor(w, j, s) && tbInput[16 * j + s] == (s % 2 == 1)
    {
      if j == i {
        assert HoldsSurvivor(pmNew, tbState, tbInput, w, i, s, 32);
      }
    }
  }


  lemma SkipState(pmNew: array<int>, tbState: array<int>, tbInput: array<bool>, w: seq<Row>, i: nat, o: nat)
    requires i < |w| && pmNew.Length == 16 && tbState.Length == tbInput.Length == 16 * |w|
    requires o < 16 && Best(w, i, o).None? && FitsMetric(w)
    requires HoldsPartial(pmNew, tbState, tbInput, w, i, 2 * o)
    ensures HoldsPartial(pmNew, tbState, tbInput, w, i, 2 * o + 2)
  {
    var next := 2 * o + 2;
    forall s | 0 <= s < 16
      ensures HoldsSurvivor(pmNew, tbState, tbInput, w, i, s, next)
    {
      assert HoldsSurvivor(pmNew, tbState, tbInput, w, i, s, 2 * o);
      assert Candidate(w, i, 2 * o).None? && Candidate(w, i, 2 * o + 1).None?;
      PartialStep(w, i, s, 2 * o);
      PartialStep(w, i, s, 2 * o + 1);
    }
  }

  /** Reads the survivors back from state 0. */
  method Traceback(ghost w: seq<Row>, n: nat, tbState: array<int>, tbInput: array<bool>, decoded: array<bool>)
    requires n == |w| && tbState.Length == tbInput.Length == 16 * n && decoded.Length >= n && decoded != tbInput
    requires HoldsTraceback(tbState, tbInput, w, n)
    modifies decoded
    ensures decoded[..n] == Decode(w)
    ensures decoded[n..] == old(decoded[n..])
  {
    var state := 0;
    var i := n;
    ZerosStayInZero(n);
    BestIsLowerBound(w, Zeros(n));
    while i > 0
      invariant 0 <= i <= n && 0 <= state < 16
      invariant HoldsTraceback(tbState, tbInput, w, n)
      invariant Best(w, i, state).Some?
      invariant Decode(w) == Path(w, i, state) + decoded[i..n]
      invariant decoded[n..] == old(decoded[n..])
    {
      i := i - 1;
      PathStepBack(w, i, state, decoded[i + 1..n]);
      decoded[i] := tbInput[16 * i + state];
      assert decoded[i..n] == [state % 2 == 1] + decoded[i + 1..n];
      state := tbState[16 * i + state];
    }
  }

  lemma PathStepBack(w: seq<Row>, i: nat, s: nat, tail: seq<bool>)
    requires i < |w| && s < 16 && Best(w, i + 1, s).Some?
    ensures Best(w, i, Predecessor(w, i, s)).Some?
    ensures Path(w, i + 1, s) + tail == Path(w, i, Predecessor(w, i, s)) + ([s % 2 == 1] + tail)
  {
    SurvivorMetric(w, i, s);
  }

  /** Hard branch metrics of all 32 register values for one input bit. */
  method HardMetrics(rx: seq<Symbol>) returns (row: seq<int>)
    requires |rx| == 4
    ensures row == HardRow(rx)
  {
    row := [];
    for sr := 0 to 32
      invariant |row| == sr && forall r :: 0 <= r < sr ==> row[r] == HardRow(rx)[r]
    {
      var e, metric := Outputs(sr), 0;
      for m := 0 to 4
        invariant m == 4 ==> metric == HardRow(rx)[sr]
        invariant m == 0 ==> metric == 0
        invariant m == 1 ==> metric == HardPenalty(e[0], rx[0])
        invariant m == 2 ==> metric == HardPenalty(e[0], rx[0]) + HardPenalty(e[1], rx[1])
        invariant m == 3 ==> metric == HardPenalty(e[0], rx[0]) + HardPenalty(e[1], rx[1]) + HardPenalty(e[2], rx[2])
      {
        if rx[m] != Erasure {
          metric := metric + if e[m] == rx[m].bit then 0 else 1;
        }
      }
      row := row + [metric];
    }
  }

  /** Soft branch metrics of all 32 register values for one input bit. */
  method SoftMetrics(rx: seq<int>) returns (row: seq<int>)
    requires |rx| == 4
    ensures row == SoftRow(rx)
  {
    row := [];
    for sr := 0 to 32
      invariant |row| == sr && forall r :: 0 <= r < sr ==> row[r] == SoftRow(rx)[r]
    {
      var e, metric := Outputs(sr), 0;
      for m := 0 to 4
        invariant m == 4 ==> metric == SoftRow(rx)[sr]
        invariant m == 0 ==> metric == 0
        invariant m == 1 ==> metric == SoftPenalty(e[0], rx[0])
        invariant m == 2 ==> metric == SoftPenalty(e[0], rx[0]) + SoftPenalty(e[1], rx[1])
        invariant m == 3 ==> metric == SoftPenalty(e[0], rx[0]) + SoftPenalty(e[1], rx[1]) + SoftPenalty(e[2], rx[2])
      {
        var s := rx[m];
        if s != 0 {
          var hb := s > 0;
          if e[m] != hb {
            metric := metric + if s < 0 then -s else s;
          }
        }
      }
      row := row + [metric];
    }
  }

  method StartMetrics(ghost w: seq<Row>) returns (pm: array<int>)
    ensures fresh(pm) && pm.Length == 16 && HoldsMetrics(pm, w, 0)
  {
    pm := new int[16];
    for s := 0 to 16
      invariant forall r :: 0 <= r < s ==> pm[r] == if r == 0 then 0 else INF_M
    {
      pm[s] := if s == 0 then 0 else INF_M;
    }
  }

  /** Hard-decision decoder: the bits of a cheapest terminated path through the received symbols. */
  method ViterbiR14(coded: seq<Symbol>, n: nat, decoded: array<bool>)
    requires 4 * n <= |coded| && decoded.Length >= n && 4 * n < INF_M
    modifies decoded
    ensures decoded[..n] == Decode(HardTable(coded, n))
    ensures decoded[n..] == old(decoded[n..])
  {
    HardFits(coded, n);
    var tbState, tbInput := ForwardHard(coded, n, HardTable(coded, n));
    Traceback(HardTable(coded, n), n, tbState, tbInput, decoded);
  }

  /** The forward pass over hard values. */
  method ForwardHard(coded: seq<Symbol>, n: nat, ghost w: seq<Row>) returns (tbState: array<int>, tbInput: array<bool>)
    requires 4 * n <= |coded| && w == HardTable(coded, n) && FitsMetric(w)
    ensures fresh(tbState) && fresh(tbInput) && tbState.Length == tbInput.Length == 16 * n
    ensures HoldsTraceback(tbState, tbInput, w, n)
  {
    tbState, tbInput := new int[16 * n], new bool[16 * n];
    var pm := StartMetrics(w);
    var pmNew := new int[16];
    for i := 0 to n
      invariant fresh(pm) && fresh(pmNew) && pm.Length == pmNew.Length == 16 && pm != pmNew
      invariant tbState != pm && tbState != pmNew
      invariant HoldsMetrics(pm, w, i) && HoldsTraceback(tbState, tbInput, w, i)
    {
      var row := HardMetrics(coded[4 * i..4 * i + 4]);
      TrellisStep(w, i, row, pm, pmNew, tbState, tbInput);
      CopyMetrics(w, i + 1, pmNew, pm);
    }
  }

  method CopyMetrics(ghost w: seq<Row>, ghost i: nat, pmNew: array<int>, pm: array<int>)
    requires i <= |w| && pm.Length == pmNew.Length == 16 && pm != pmNew && HoldsMetrics(pmNew, w, i)
    modifies pm
    ensures HoldsMetrics(pm, w, i)
  {
    for s := 0 to 16
      invariant HoldsMetrics(pmNew, w, i)
      invariant forall r :: 0 <= r < s ==> pm[r] == pmNew[r]
    {
      pm[s] := pmNew[s];
    }
  }

  /** Soft-decision decoder: the bits of a terminated path of least total penalty. */
  method ViterbiR14Soft(soft: seq<int>, n: nat, decoded: array<bool>)
    requires 4 * n <= |soft| && decoded.Length >= n && Magnitude(soft, 4 * n) < INF_M
    modifies decoded
    ensures decoded[..n] == Decode(SoftTable(soft, n))
    ensures decoded[n..] == old(decoded[n..])
  {
    SoftFits(soft, n);
    var tbState, tbInput := ForwardSoft(soft, n, SoftTable(soft, n));
    Traceback(SoftTable(soft, n), n, tbState, tbInput, decoded);
  }

  /** The forward pass over soft values. */
  method ForwardSoft(soft: seq<int>, n: nat, ghost w: seq<Row>) returns (tbState: array<int>, tbInput: array<bool>)
    requires 4 * n <= |soft| && w == SoftTable(soft, n) && FitsMetric(w)
    ensures fresh(tbState) && fresh(tbInput) && tbState.Length == tbInput.Length == 16 * n
    ensures HoldsTraceback(tbState, tbInput, w, n)
  {
    tbState, tbInput := new int[16 * n], new bool[16 * n];
    var pm := StartMetrics(w);
    var pmNew := new int[16];
    for i := 0 to n
      invariant fresh(pm) && fresh(pmNew) && pm.Length == pmNew.Length == 16 && pm != pmNew
      invariant tbState != pm && tbState != pmNew
      invariant HoldsMetrics(pm, w, i) && HoldsTraceback(tbState, tbInput, w, i)
    {
      var row := SoftMetrics(soft[4 * i..4 * i + 4]);
      TrellisStep(w, i, row, pm, pmNew, tbState, tbInput);
      CopyMetrics(w, i + 1, pmNew, pm);
    }
  }
}
