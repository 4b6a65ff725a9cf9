/**
 * Branch metrics of the hard and soft rate-1/4 Viterbi decoders, and what a whole path then costs:
 * the distance between the received punctured word and the path's codeword.
 */
module BranchMetrics {
  import opened BitSeq
  import opened Trellis
  import opened ConvCode

  /** A received mother bit: the source's 0 and 1, or its 2 for a punctured position. */
  datatype Symbol = Known(bit: bool) | Erasure

  /** Hard metric of one mother bit: e ^ rx unless rx is an erasure. */
  function HardPenalty(e: bool, rx: Symbol): nat {
    match rx
    case Known(b) => if e == b then 0 else 1
    case Erasure => 0
  }

  /** Soft metric of one mother bit: |s| when the sign of s contradicts e; positive means 1. */
  function SoftPenalty(e: bool, s: int): nat {
    if s == 0 || e == (s > 0) then 0 else if s < 0 then -s else s
  }

  /** Metric of four expected bits against four received symbols. */
  function HardMetric(e: seq<bool>, rx: seq<Symbol>): nat
    requires |e| == |rx| == 4
  {
    HardPenalty(e[0], rx[0]) + HardPenalty(e[1], rx[1]) + HardPenalty(e[2], rx[2]) + HardPenalty(e[3], rx[3])
  }

  function SoftMetric(e: seq<bool>, rx: seq<int>): nat
    requires |e| == |rx| == 4
  {
    SoftPenalty(e[0], rx[0]) + SoftPenalty(e[1], rx[1]) + SoftPenalty(e[2], rx[2]) + SoftPenalty(e[3], rx[3])
  }

  function HardRow(rx: seq<Symbol>): Row
    requires |rx| == 4
  {
    seq(32, sr requires 0 <= sr < 32 => HardMetric(Outputs(sr), rx))
  }

  function SoftRow(rx: seq<int>): Row
    requires |rx| == 4
  {
    seq(32, sr requires 0 <= sr < 32 => SoftMetric(Outputs(sr), rx))
  }

  function HardTable(coded: seq<Symbol>, n: nat): (w: seq<Row>)
    requires 4 * n <= |coded|
    ensures |w| == n
  {
    seq(n, i requires 0 <= i < n => HardRow(coded[4 * i..4 * i + 4]))
  }

  function SoftTable(coded: seq<int>, n: nat): (w: seq<Row>)
    requires 4 * n <= |coded|
    ensures |w| == n
  {
    seq(n, i requires 0 <= i < n => SoftRow(coded[4 * i..4 * i + 4]))
  }

  // ---- Distances of whole words ----

  /** Total soft penalty of the received values y against the bits c. */
  function SoftDistance(y: seq<int>, c: seq<bool>): nat
    requires |y| == |c|
  {
    if |y| == 0 then 0
    else SoftDistance(y[..|y| - 1], c[..|c| - 1]) + SoftPenalty(c[|c| - 1], y[|y| - 1])
  }

  /** Full-confidence soft value of a bit: +c for 1, -c for 0. */
  function SoftBit(b: bool, c: int): int {
    if b then c else -c
  }

  function SoftBits(y: seq<bool>, c: int): (r: seq<int>)
    ensures |r| == |y|
  {
    seq(|y|, i requires 0 <= i < |y| => SoftBit(y[i], c))
  }

  function SoftSymbol(rx: Symbol, c: int): int {
    match rx
    case Known(b) => SoftBit(b, c)
    case Erasure => 0
  }

  function SoftSymbols(y: seq<Symbol>, c: int): (r: seq<int>)
    ensures |r| == |y|
  {
    seq(|y|, i requires 0 <= i < |y| => SoftSymbol(y[i], c))
  }

  function Symbols(y: seq<bool>): (r: seq<Symbol>)
    ensures |r| == |y|
  {
    seq(|y|, i requires 0 <= i < |y| => Known(y[i]))
  }

  /** With values +1 and -1 the soft penalty counts disagreements. */
  lemma {:induction false} UnitSoftDistance(y: seq<bool>, c: seq<bool>)
    requires |y| == |c|
    ensures SoftDistance(SoftBits(y, 1), c) == Distance(y, c)
  {
    if |y| > 0 {
      var n := |y| - 1;
      UnitSoftDistance(y[..n], c[..n]);
      assert SoftBits(y, 1)[..n] == SoftBits(y[..n], 1);
    }
  }

  // ---- What a path costs ----

  /** The three coded bits that the input bits a, b add after x. */
  function PairOutputs(x: seq<bool>, a: bool, b: bool): (c: seq<bool>)
    ensures |c| == 3
  {
    var o, o' := Outputs(Register(x + [a])), Outputs(Register(x + [a] + [b]));
    [o[0], o[1], o'[0]]
  }

  lemma EncodeExtend(x: seq<bool>, b: bool)
    ensures Encode(x + [b]) == Encode(x) + Outputs(Register(x + [b]))
  {
    assert (x + [b])[..|x|] == x;
  }

  lemma {:induction false} PuncturePrefix(m: seq<bool>, m': seq<bool>, p: nat)
    requires 8 * p <= |m|
    ensures Puncture(m + m', p) == Puncture(m, p)
  {
    if p > 0 {
      PuncturePrefix(m, m', p - 1);
    }
  }

  lemma CodewordExtend(x: seq<bool>, p: nat, a: bool, b: bool)
    requires |x| == 2 * p
    ensures Codeword(x + [a] + [b], p + 1) == Codeword(x, p) + PairOutputs(x, a, b)
  {
    EncodeExtend(x, a);
    EncodeExtend(x + [a], b);
    var m, o, o' := Encode(x), Outputs(Register(x + [a])), Outputs(Register(x + [a] + [b]));
    assert Encode(x + [a] + [b]) == m + (o + o');
    PuncturePrefix(m, o + o', p);
  }

  lemma {:induction false} DepuncturePrefix<T>(c: seq<T>, d: seq<T>, p: nat, e: T)
    requires 3 * p <= |c|
    ensures Depuncture(c + d, p, e) == Depuncture(c, p, e)
  {
    if p > 0 {
      DepuncturePrefix(c, d, p - 1, e);
    }
  }

  lemma {:induction false} CostPrefix(w: seq<Row>, v: seq<Row>, x: seq<bool>)
    requires |x| <= |w| && |x| <= |v|
    requires forall i :: 0 <= i < |x| ==> w[i] == v[i]
    ensures Cost(w, x) == Cost(v, x)
  {
    if |x| > 0 {
      CostPrefix(w, v, x[..|x| - 1]);
    }
  }

  lemma CostOfPair(w: seq<Row>, x: seq<bool>, a: bool, b: bool)
    requires |x| + 2 <= |w|
    ensures Cost(w, x + [a] + [b])
            == Cost(w, x) + w[|x|][Register(x + [a])] + w[|x| + 1][Register(x + [a] + [b])]
  {
    assert (x + [a])[..|x|] == x;
    assert (x + [a] + [b])[..|x| + 1] == x + [a];
  }

  lemma SoftDistanceExtend(y: seq<int>, c: seq<bool>, r: int, b: bool)
    requires |y| == |c|
    ensures SoftDistance(y + [r], c + [b]) == SoftDistance(y, c) + SoftPenalty(b, r)
  {
    assert (y + [r])[..|y|] == y && (c + [b])[..|c|] == c;
  }

  function TriplePenalty(r: int, s: int, t: int, d: seq<bool>): nat
    requires |d| == 3
  {
    SoftPenalty(d[0], r) + SoftPenalty(d[1], s) + SoftPenalty(d[2], t)
  }

  lemma SoftDistanceTriple(y: seq<int>, c: seq<bool>, r: int, s: int, t: int, d: seq<bool>)
    requires |y| == |c| && |d| == 3
    ensures SoftDistance(y + [r, s, t], c + d) == SoftDistance(y, c) + TriplePenalty(r, s, t, d)
  {
    var y1, c1 := y + [r], c + [d[0]];
    var y2, c2 := y1 + [s], c1 + [d[1]];
    assert y + [r, s, t] == y2 + [t] && c + d == c2 + [d[2]];
    SoftDistanceExtend(y, c, r, d[0]);
    SoftDistanceExtend(y1, c1, s, d[1]);
    SoftDistanceExtend(y2, c2, t, d[2]);
  }

  lemma SoftTableExtend(m: seq<int>, p: nat, q: seq<int>)
    requires |m| == 8 * p && |q| == 8
    ensures var w := SoftTable(m + q, 2 * p + 2);
            && (forall i :: 0 <= i < 2 * p ==> w[i] == SoftTable(m, 2 * p)[i])
            && w[2 * p] == SoftRow(q[..4]) && w[2 * p + 1] == SoftRow(q[4..])
  {
    forall i | 0 <= i < 2 * p
      ensures SoftTable(m + q, 2 * p + 2)[i] == SoftTable(m, 2 * p)[i]
    {
      assert (m + q)[4 * i..4 * i + 4] == m[4 * i..4 * i + 4];
    }
    assert (m + q)[4 * (2 * p)..4 * (2 * p) + 4] == q[..4];
    assert (m + q)[4 * (2 * p + 1)..4 * (2 * p + 1) + 4] == q[4..];
  }

  lemma DepuncturedRows(r: int, s: int, t: int, sr: nat)
    requires sr < 32
    ensures var q := [r, s, 0, 0, t, 0, 0, 0];
            && SoftRow(q[..4])[sr] == SoftPenalty(Outputs(sr)[0], r) + SoftPenalty(Outputs(sr)[1], s)
            && SoftRow(q[4..])[sr] == SoftPenalty(Outputs(sr)[0], t)
  {
  }

  /** The decoder's costs for the received punctured word y of p groups. */
  function ReceivedTable(y: seq<int>, p: nat): (w: seq<Row>)
    requires |y| == 3 * p
    ensures |w| == 2 * p
  {
    SoftTable(Depuncture(y, p, 0), 2 * p)
  }

  lemma ReceivedTableExtend(y: seq<int>, p: nat, r: int, s: int, t: int)
    requires |y| == 3 * p
    ensures var w, q := ReceivedTable(y + [r, s, t], p + 1), [r, s, 0, 0, t, 0, 0, 0];
            && (forall i :: 0 <= i < 2 * p ==> w[i] == ReceivedTable(y, p)[i])
            && w[2 * p] == SoftRow(q[..4]) && w[2 * p + 1] == SoftRow(q[4..])
  {
    DepuncturePrefix(y, [r, s, t], p, 0);
    SoftTableExtend(Depuncture(y, p, 0), p, [r, s, 0, 0, t, 0, 0, 0]);
  }

  lemma CostOfTriple(y: seq<int>, p: nat, x: seq<bool>, r: int, s: int, t: int, a: bool, b: bool)
    requires |y| == 3 * p && |x| == 2 * p
    ensures Cost(ReceivedTable(y + [r, s, t], p + 1), x + [a] + [b])
            == Cost(ReceivedTable(y, p), x) + TriplePenalty(r, s, t, PairOutputs(x, a, b))
  {
    ReceivedTableExtend(y, p, r, s, t);
    var w := ReceivedTable(y + [r, s, t], p + 1);
    CostOfPair(w, x, a, b);
    CostPrefix(w, ReceivedTable(y, p), x);
    DepuncturedRows(r, s, t, Register(x + [a]));
    DepuncturedRows(r, s, t, Register(x + [a] + [b]));
  }

  lemma CostIsSoftDistanceStep(y: seq<int>, p: nat, x: seq<bool>, r: int, s: int, t: int, a: bool, b: bool)
    requires |y| == 3 * p && |x| == 2 * p
    requires Cost(ReceivedTable(y, p), x) == SoftDistance(y, Codeword(x, p))
    ensures Cost(ReceivedTable(y + [r, s, t], p + 1), x + [a] + [b])
            == SoftDistance(y + [r, s, t], Codeword(x + [a] + [b], p + 1))
  {
    CostOfTriple(y, p, x, r, s, t, a, b);
    CodewordExtend(x, p, a, b);
    SoftDistanceTriple(y, Codeword(x, p), r, s, t, PairOutputs(x, a, b));
  }

  /** A path's cost in the decoder is the distance from the received word to its codeword. */
  lemma {:induction false} CostIsSoftDistance(y: seq<int>, p: nat, x: seq<bool>)
    requires |y| == 3 * p && |x| == 2 * p
    ensures Cost(ReceivedTable(y, p), x) == SoftDistance(y, Codeword(x, p))
  {
    if p > 0 {
      var n, q := 3 * p - 3, 2 * p - 2;
      CostIsSoftDistance(y[..n], p - 1, x[..q]);
      CostIsSoftDistanceStep(y[..n], p - 1, x[..q], y[n], y[n + 1], y[n + 2], x[q], x[q + 1]);
      SplitLastTwo(x);
      SplitLastThree(y);
    }
  }

  // ---- The hard decoder is the soft decoder on full-confidence values ----

  lemma HardPenaltyIsSoft(e: bool, rx: Symbol, c: int)
    requires c > 0
    ensures SoftPenalty(e, SoftSymbol(rx, c)) == c * HardPenalty(e, rx)
  {
  }

  lemma HardMetricIsSoft(e: seq<bool>, rx: seq<Symbol>, c: int)
    requires |e| == |rx| == 4 && c > 0
    ensures SoftMetric(e, SoftSymbols(rx, c)) == c * HardMetric(e, rx)
  {
    HardPenaltyIsSoft(e[0], rx[0], c);
    HardPenaltyIsSoft(e[1], rx[1], c);
    HardPenaltyIsSoft(e[2], rx[2], c);
    HardPenaltyIsSoft(e[3], rx[3], c);
    var h0, h1, h2, h3 := HardPenalty(e[0], rx[0]), HardPenalty(e[1], rx[1]),
                          HardPenalty(e[2], rx[2]), HardPenalty(e[3], rx[3]);
    DistributeFour(c, h0, h1, h2, h3);
  }

  lemma DistributeFour(c: int, h0: int, h1: int, h2: int, h3: int)
    ensures c * (h0 + h1 + h2 + h3) == c * h0 + c * h1 + c * h2 + c * h3
  {
  }

  lemma HardRowIsSoft(rx: seq<Symbol>, c: int)
    requires |rx| == 4 && c > 0
    ensures Rescaled(HardRow(rx), SoftRow(SoftSymbols(rx, c)), c, 0)
  {
    forall sr | 0 <= sr < 32
      ensures SoftRow(SoftSymbols(rx, c))[sr] == c * HardRow(rx)[sr]
    {
      HardMetricIsSoft(Outputs(sr), rx, c);
    }
  }

  /** Decoding +c, -c and 0 for 1, 0 and erasure gives the hard decoder's bits, ties included. */
  lemma SoftRefinesHard(coded: seq<Symbol>, n: nat, c: int)
    requires 4 * n <= |coded| && c > 0
    ensures Decode(SoftTable(SoftSymbols(coded, c), n)) == Decode(HardTable(coded, n))
  {
    var w, v := HardTable(coded, n), SoftTable(SoftSymbols(coded, c), n);
    forall i | 0 <= i < |w|
      ensures Rescaled(w[i], v[i], c, 0)
    {
      var rx := coded[4 * i..4 * i + 4];
      HardRowIsSoft(rx, c);
      assert SoftSymbols(coded, c)[4 * i..4 * i + 4] == SoftSymbols(rx, c);
    }
    DecodeIgnoresScale(w, v, c, seq(|w|, _ => 0));
  }

  lemma {:induction false} DepunctureSoftens(y: seq<bool>, p: nat, c: int)
    requires 3 * p <= |y|
    ensures SoftSymbols(Depuncture(Symbols(y), p, Erasure), c) == Depuncture(SoftBits(y, c), p, 0)
  {
    if p > 0 {
      DepunctureSoftens(y, p - 1, c);
    }
  }

  /** The bits that the soft decoder makes of the punctured word y. */
  function SoftDecoded(y: seq<int>, p: nat): (x: seq<bool>)
    requires |y| == 3 * p
    ensures |x| == 2 * p
  {
    Decode(ReceivedTable(y, p))
  }

  /** The bits that the hard decoder makes of the punctured word y. */
  function HardDecoded(y: seq<bool>, p: nat): (x: seq<bool>)
    requires |y| == 3 * p
    ensures |x| == 2 * p
  {
    Decode(HardTable(Depuncture(Symbols(y), p, Erasure), 2 * p))
  }

  /** The soft decoder's answer is a terminated word of least total penalty against y. */
  lemma SoftDecodedIsNearest(y: seq<int>, p: nat, z: seq<bool>)
    requires |y| == 3 * p && |z| == 2 * p && Terminated(z)
    ensures Terminated(SoftDecoded(y, p))
    ensures SoftDistance(y, Codeword(SoftDecoded(y, p), p)) <= SoftDistance(y, Codeword(z, p))
  {
    DecodeIsOptimal(ReceivedTable(y, p));
    CostIsSoftDistance(y, p, SoftDecoded(y, p));
    CostIsSoftDistance(y, p, z);
  }

  /** On full-confidence values of any magnitude c the soft decoder agrees with the hard one. */
  lemma SoftDecodedIsHard(y: seq<bool>, p: nat, c: int)
    requires |y| == 3 * p && c > 0
    ensures SoftDecoded(SoftBits(y, c), p) == HardDecoded(y, p)
  {
    SoftRefinesHard(Depuncture(Symbols(y), p, Erasure), 2 * p, c);
    DepunctureSoftens(y, p, c);
  }

  /** The hard decoder's answer is a terminated word whose codeword is nearest to y. */
  lemma HardDecodedIsNearest(y: seq<bool>, p: nat, z: seq<bool>)
    requires |y| == 3 * p && |z| == 2 * p && Terminated(z)
    ensures Terminated(HardDecoded(y, p))
    ensures Distance(y, Codeword(HardDecoded(y, p), p)) <= Distance(y, Codeword(z, p))
  {
    SoftDecodedIsHard(y, p, 1);
    SoftDecodedIsNearest(SoftBits(y, 1), p, z);
    UnitSoftDistance(y, Codeword(HardDecoded(y, p), p));
    UnitSoftDistance(y, Codeword(z, p));
  }

  // ---- Erasures anywhere ----

  /** The positions among the first k at which a known symbol differs from the code. */
  ghost function Conflicts(coded: seq<Symbol>, code: seq<bool>, k: nat): set<nat>
    requires k <= |coded| && k <= |code|
  {
    set i: nat | i < k && coded[i].Known? && coded[i].bit != code[i]
  }

  lemma NextConflict(coded: seq<Symbol>, code: seq<bool>, k: nat, n: nat)
    requires n == k + 1 && n <= |coded| && n <= |code|
    ensures |Conflicts(coded, code, n)| == |Conflicts(coded, code, k)| + HardPenalty(code[k], coded[k])
  {
    var more: set<nat> := if HardPenalty(code[k], coded[k]) == 1 then {k} else {};
    assert Conflicts(coded, code, n) == Conflicts(coded, code, k) + more;
  }

  lemma FourConflicts(coded: seq<Symbol>, code: seq<bool>, k: nat, e: seq<bool>, rx: seq<Symbol>)
    requires k + 4 <= |coded| && k + 4 <= |code| && e == code[k..k + 4] && rx == coded[k..k + 4]
    ensures |Conflicts(coded, code, k + 4)| == |Conflicts(coded, code, k)| + HardMetric(e, rx)
  {
    NextConflict(coded, code, k, k + 1);
    NextConflict(coded, code, k + 1, k + 2);
    NextConflict(coded, code, k + 2, k + 3);
    NextConflict(coded, code, k + 3, k + 4);
  }

  lemma SameConflicts(coded: seq<Symbol>, code: seq<bool>, longer: seq<bool>, k: nat)
    requires k <= |coded| && k == |code| <= |longer| && longer[..k] == code
    ensures Conflicts(coded, code, k) == Conflicts(coded, longer, k)
  {
    assert forall i: nat :: i < k ==> longer[i] == longer[..k][i];
  }

  /** With erasures at any positions, a path costs the number of known symbols that its code contradicts. */
  lemma {:induction false} CostIsConflicts(coded: seq<Symbol>, n: nat, x: seq<bool>)
    requires 4 * n <= |coded| && |x| <= n
    ensures Cost(HardTable(coded, n), x) == |Conflicts(coded, Encode(x), 4 * |x|)|
  {
    if |x| > 0 {
      var i := |x| - 1;
      var before, e := Encode(x[..i]), Outputs(Register(x));
      CostIsConflicts(coded, n, x[..i]);
      SameConflicts(coded, before, before + e, 4 * i);
      FourConflicts(coded, before + e, 4 * i, e, coded[4 * i..4 * i + 4]);
    }
  }

  /** Whatever is erased, the hard decoder's answer is a terminated word that contradicts the fewest known symbols. */
  lemma HardDecodedHasFewestConflicts(coded: seq<Symbol>, n: nat, z: seq<bool>)
    requires 4 * n <= |coded| && |z| == n && Terminated(z)
    ensures var x := Decode(HardTable(coded, n));
            && Terminated(x)
            && |Conflicts(coded, Encode(x), 4 * n)| <= |Conflicts(coded, Encode(z), 4 * n)|
  {
    DecodeIsOptimal(HardTable(coded, n));
    CostIsConflicts(coded, n, Decode(HardTable(coded, n)));
    CostIsConflicts(coded, n, z);
  }
}
