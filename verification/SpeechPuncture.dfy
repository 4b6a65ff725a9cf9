/** The speech channel's puncturing by position tables, and its inverse. */
module SpeechPuncture {
  import opened BitSeq
  import opened Trellis
  import opened BranchMetrics
  import opened SpeechCode
  import opened SpeechMetrics

  /** Positions kept per period, with an unused entry in front. */
  datatype Puncturer = Puncturer(p: seq<nat>, t: nat, period: nat)

  const RATE112_168 := Puncturer([0, 1, 2, 4], 3, 6)
  const RATE72_162 := Puncturer([0, 1, 2, 3, 4, 5, 7, 8, 10, 11], 9, 12)

  predicate WellFormed(pu: Puncturer) {
    pu == RATE112_168 || pu == RATE72_162
  }

  /** Zero-based mother position within its period of the c-th punctured bit of a period. */
  function PeriodPosition(pu: Puncturer, c: nat): (k: nat)
    requires WellFormed(pu)
  {
    if pu == RATE112_168 then (if c <= 1 then c else c + 1) else if c <= 4 then c else if c <= 6 then c + 1 else c + 2
  }

  /** Zero-based mother position of punctured bit j. */
  function MotherIndex(pu: Puncturer, j: nat): (k: nat)
    requires WellFormed(pu)
  {
    if pu == RATE112_168 then 6 * (j / 3) + PeriodPosition(pu, j % 3) else 12 * (j / 9) + PeriodPosition(pu, j % 9)
  }

  // ---- Closed forms ----

  lemma {:induction false} OffsetInClass1(q: nat)
    requires 2 * q <= CLASS1_BITS
    ensures Offset(2 * q) == 3 * q
  {
    if q > 0 {
      OffsetInClass1(q - 1);
      TwoMore(2 * q - 2, 2 * q, q);
    }
  }

  lemma TwoMore(i: nat, n: nat, q: nat)
    requires n == i + 2 && i % 2 == 0 && n <= CLASS1_BITS
    ensures Offset(n) == Offset(i) + 3
  {
    assert Offset(i + 1) == Offset(i) + 2;
  }

  lemma {:induction false} OffsetInClass2(r: nat)
    ensures Offset(CLASS1_BITS + 4 * r) == 168 + 9 * r
  {
    if r == 0 {
      OffsetInClass1(56);
    } else {
      OffsetInClass2(r - 1);
      FourMore(CLASS1_BITS + 4 * (r - 1), CLASS1_BITS + 4 * r);
    }
  }

  lemma FourMore(i: nat, n: nat)
    requires n == i + 4 && i % 4 == 0 && i >= CLASS1_BITS
    ensures Offset(i + 1) == Offset(i) + 3 && Offset(i + 2) == Offset(i) + 5 && Offset(i + 3) == Offset(i) + 7
    ensures Offset(n) == Offset(i) + 9
  {
  }

  predicate SendsTo(pu: Puncturer, j: nat, k: nat)
    requires WellFormed(pu)
  {
    MotherIndex(pu, j) == k
  }

  /** The table sends kept output m of step i back to its mother position. */
  ghost predicate Hits(pu: Puncturer, base: nat, i: nat, m: nat)
    requires WellFormed(pu)
  {
    base <= i && HitsFrom(pu, Offset(base), Offset(i), i - base, m)
  }

  /** Output m of a step that comes `steps` steps, and from offset start to offset at, after the first one. */
  predicate HitsFrom(pu: Puncturer, start: nat, at: nat, steps: nat, m: nat)
    requires WellFormed(pu)
  {
    start <= at && SendsTo(pu, at - start + m, 3 * steps + m)
  }

  lemma Class1Hits(i: nat, m: nat)
    requires i < CLASS1_BITS && m < KeepCount(i)
    ensures Hits(RATE112_168, 0, i, m)
  {
    var q := i / 2;
    OffsetInClass1(q);
    Rate112At(q);
    if i % 2 == 1 {
      OffsetAfter(i - 1, i);
      assert Offset(i) == 3 * q + 2;
    } else {
      assert Offset(i) == 3 * q;
    }
  }

  lemma OffsetAfter(k: nat, i: nat)
    requires i == k + 1
    ensures Offset(i) == Offset(k) + KeepCount(k)
  {
  }

  lemma Rate112At(q: nat)
    ensures MotherIndex(RATE112_168, 3 * q) == 6 * q && MotherIndex(RATE112_168, 3 * q + 1) == 6 * q + 1
    ensures MotherIndex(RATE112_168, 3 * q + 2) == 6 * q + 3
  {
    assert (3 * q) / 3 == q && (3 * q + 1) / 3 == q && (3 * q + 2) / 3 == q;
  }

  /** Offset of step c of the four steps from r. */
  function QuarterOffset(c: nat): nat {
    if c == 0 then 0 else if c == 1 then 3 else if c == 2 then 5 else 7
  }

  lemma OffsetInQuarter(r: nat, c: nat, i: nat)
    requires c < 4 && i == CLASS1_BITS + 4 * r + c
    ensures Offset(i) == 168 + 9 * r + QuarterOffset(c)
    ensures KeepCount(i) == if c == 0 then 3 else 2
  {
    OffsetInClass2(r);
    QuarterStart(r);
    FourMore(CLASS1_BITS + 4 * r, CLASS1_BITS + 4 * r + 4);
  }

  lemma Class2Hits(base: nat, i: nat, m: nat)
    requires base == CLASS1_BITS && i >= base && m < KeepCount(i)
    ensures Hits(RATE72_162, base, i, m)
  {
    var r, c := (i - base) / 4, (i - base) % 4;
    OffsetInClass2(0);
    OffsetInQuarter(r, c, i);
    Rate72Hits(r, c, m);
    HitAt(RATE72_162, Offset(base), Offset(i), i - base, m, 9 * r + QuarterOffset(c) + m, 12 * r + 3 * c + m);
  }

  lemma HitAt(pu: Puncturer, start: nat, at: nat, steps: nat, m: nat, j: nat, k: nat)
    requires WellFormed(pu) && start <= at && start + j == at + m && k == 3 * steps + m && SendsTo(pu, j, k)
    ensures HitsFrom(pu, start, at, steps, m)
  {
    assert at - start + m == j;
  }

  lemma Rate72Hits(r: nat, c: nat, m: nat)
    requires c < 4 && m < if c == 0 then 3 else 2
    ensures MotherIndex(RATE72_162, 9 * r + QuarterOffset(c) + m) == 12 * r + 3 * c + m
  {
    Rate72At(r, QuarterOffset(c) + m, 9 * r + QuarterOffset(c) + m);
  }

  lemma QuarterStart(r: nat)
    ensures (CLASS1_BITS + 4 * r) % 4 == 0 && (CLASS1_BITS + 4 * r + 1) % 4 == 1
    ensures (CLASS1_BITS + 4 * r + 2) % 4 == 2 && (CLASS1_BITS + 4 * r + 3) % 4 == 3
  {
  }

  lemma Rate72At(r: nat, c: nat, j: nat)
    requires c < 9 && j == 9 * r + c
    ensures MotherIndex(RATE72_162, j) == 12 * r + PeriodPosition(RATE72_162, c)
  {
    assert j / 9 == r && j % 9 == c;
  }

  // ---- Every punctured bit belongs to a step ----

  lemma {:induction false} LocateStep(base: nat, n: nat, j: nat) returns (i: nat, m: nat)
    requires Offset(base) <= Offset(base + n) && j < Offset(base + n) - Offset(base)
    ensures base <= i < base + n && m < KeepCount(i) && Offset(base) <= Offset(i)
    ensures j == Offset(i) - Offset(base) + m
    decreases n
  {
    var last := base + n - 1;
    OffsetMonotone(base, base + n);
    if n == 0 {
      assert false;
    } else {
      OffsetMonotone(base, last);
      if j >= Offset(last) - Offset(base) {
        i, m := last, j - (Offset(last) - Offset(base));
      } else {
        i, m := LocateStep(base, n - 1, j);
      }
    }
  }

  // ---- Puncturing ----

  function Punctured(pu: Puncturer, input: seq<bool>, n: nat): (r: seq<bool>)
    requires WellFormed(pu) && forall j: nat :: j < n ==> MotherIndex(pu, j) < |input|
    ensures |r| == n
  {
    seq(n, j requires 0 <= j < n => input[MotherIndex(pu, j)])
  }

  method RcpcPunct(pu: Puncturer, input: seq<bool>, n: nat, output: array<bool>)
    requires WellFormed(pu) && forall j: nat :: j < n ==> MotherIndex(pu, j) < |input|
    requires output.Length == n
    modifies output
    ensures output[..] == Punctured(pu, input, n)
  {
    for j := 1 to n + 1
      invariant forall l :: 0 <= l < j - 1 ==> output[l] == input[MotherIndex(pu, l)]
    {
      var k := TablePosition(pu, j);
      output[j - 1] := input[k - 1];
    }
  }

  lemma {:induction false} EncodedAt(x: seq<bool>, i: nat, m: nat)
    requires i < |x| && m < 3
    ensures SpeechEncode(x)[3 * i + m] == SpeechOutputs(Register(x[..i + 1]))[m]
  {
    var y := x[..|x| - 1];
    if i < |x| - 1 {
      EncodedAt(y, i, m);
      assert y[..i + 1] == x[..i + 1];
    } else {
      assert x[..i + 1] == x;
    }
  }

  lemma {:induction false} CodewordAt(x: seq<bool>, i: nat, m: nat)
    requires i < |x| && m < KeepCount(i)
    ensures Offset(i) + m < Offset(|x|)
    ensures SpeechCodeword(x)[Offset(i) + m] == SpeechOutputs(Register(x[..i + 1]))[m]
  {
    OffsetAfter(i, i + 1);
    OffsetMonotone(i + 1, |x|);
    CodewordPrefix(x, i + 1);
    CodewordEnd(x[..i + 1], i, m);
    assert SpeechCodeword(x)[Offset(i) + m] == SpeechCodeword(x)[..Offset(i + 1)][Offset(i) + m];
  }

  lemma CodewordEnd(x: seq<bool>, i: nat, m: nat)
    requires |x| == i + 1 && m < KeepCount(i)
    ensures Offset(i) + m < Offset(|x|) && SpeechCodeword(x)[Offset(i) + m] == SpeechOutputs(Register(x))[m]
  {
    var c, o := SpeechCodeword(x[..i]), SpeechOutputs(Register(x))[..KeepCount(i)];
    assert x[..|x| - 1] == x[..i];
    assert SpeechCodeword(x) == c + o;
    assert (c + o)[|c| + m] == o[m];
  }

  /** Both puncturers name, for kept output m of every step i, its own mother position. */
  ghost predicate NamesKept(pu: Puncturer, base: nat, n: nat)
    requires WellFormed(pu)
  {
    forall i, m :: base <= i < base + n && 0 <= m < KeepCount(i) ==> Hits(pu, base, i, m)
  }

  lemma Class1NamesKept(n: nat)
    requires n <= CLASS1_BITS
    ensures NamesKept(RATE112_168, 0, n)
  {
    forall i, m | 0 <= i < 0 + n && 0 <= m < KeepCount(i)
      ensures Hits(RATE112_168, 0, i, m)
    {
      Class1Hits(i, m);
    }
  }

  lemma Class2NamesKept(n: nat)
    ensures NamesKept(RATE72_162, CLASS1_BITS, n)
  {
    forall i, m | CLASS1_BITS <= i < CLASS1_BITS + n && 0 <= m < KeepCount(i)
      ensures Hits(RATE72_162, CLASS1_BITS, i, m)
    {
      Class2Hits(CLASS1_BITS, i, m);
    }
  }

  /** Punctured bit j counted from step base is kept output m of a step i. */
  lemma Locate(pu: Puncturer, base: nat, n: nat, j: nat) returns (i: nat, m: nat)
    requires WellFormed(pu) && NamesKept(pu, base, n)
    requires Offset(base) <= Offset(base + n) && j < Offset(base + n) - Offset(base)
    ensures base <= i < base + n && m < KeepCount(i)
    ensures Offset(base) + j == Offset(i) + m && MotherIndex(pu, j) == 3 * (i - base) + m < 3 * n
  {
    i, m := LocateStep(base, n, j);
    assert Hits(pu, base, i, m);
  }

  /** Place a of s and place b of t hold the same bit. */
  predicate Same(s: seq<bool>, a: nat, t: seq<bool>, b: nat) {
    a < |s| && b < |t| && s[a] == t[b]
  }

  /** Kept output m of step i is in the codeword what it is in the mother code. */
  predicate AgreesAt(coded: seq<bool>, code: seq<bool>, i: nat, m: nat) {
    Same(coded, 3 * i + m, code, Offset(i) + m)
  }

  ghost predicate Agree(coded: seq<bool>, code: seq<bool>, n: nat) {
    forall i, m :: 0 <= i < n && 0 <= m < KeepCount(i) ==> AgreesAt(coded, code, i, m)
  }

  lemma StepAgrees(x: seq<bool>, i: nat, m: nat)
    requires i < |x| && m < KeepCount(i)
    ensures AgreesAt(SpeechEncode(x), SpeechCodeword(x), i, m)
  {
    CodewordAt(x, i, m);
    EncodedAt(x, i, m);
  }

  lemma CodewordAgrees(x: seq<bool>, n: nat)
    requires n == |x|
    ensures Agree(SpeechEncode(x), SpeechCodeword(x), n)
  {
    forall i, m | 0 <= i < n && 0 <= m < KeepCount(i)
      ensures AgreesAt(SpeechEncode(x), SpeechCodeword(x), i, m)
    {
      StepAgrees(x, i, m);
    }
  }

  /** Bit j of the codeword, counted from step base, is the mother bit that the table names. */
  lemma TableReads(pu: Puncturer, coded: seq<bool>, code: seq<bool>, base: nat, n: nat, j: nat, from: nat, k: nat)
    requires WellFormed(pu) && NamesKept(pu, base, n) && Agree(coded, code, base + n)
    requires from == Offset(base) && from + j < Offset(base + n) && k == MotherIndex(pu, j)
    ensures Same(coded, 3 * base + k, code, from + j)
  {
    OffsetMonotone(base, base + n);
    var i, m := Locate(pu, base, n, j);
    assert AgreesAt(coded, code, i, m);
  }

  // ---- Depuncturing ----

  /** out holds y at the table's positions and erased everywhere else. */
  ghost predicate IsDepunctured<T>(pu: Puncturer, y: seq<T>, out: seq<T>, erased: T)
    requires WellFormed(pu)
  {
    && (forall j :: 0 <= j < |y| ==> MotherIndex(pu, j) < |out| && out[MotherIndex(pu, j)] == y[j])
    && (forall k :: 0 <= k < |out| && (forall j :: 0 <= j < |y| ==> MotherIndex(pu, j) != k) ==> out[k] == erased)
  }

  /** Later punctured bits come from later mother bits. */
  lemma MotherIndexIncreases(pu: Puncturer, j: nat, l: nat)
    requires WellFormed(pu) && j < l
    ensures MotherIndex(pu, j) < MotherIndex(pu, l)
  {
    if pu == RATE112_168 {
      ThirdsIncrease(j / 3, j % 3, l / 3, l % 3, j, l);
    } else {
      NinthsIncrease(j / 9, j % 9, l / 9, l % 9, j, l);
    }
  }

  lemma ThirdsIncrease(q: nat, c: nat, r: nat, d: nat, j: nat, l: nat)
    requires c < 3 && d < 3 && j == 3 * q + c && l == 3 * r + d && j < l
    ensures MotherIndex(RATE112_168, j) < MotherIndex(RATE112_168, l)
  {
    Rate112At(q);
    Rate112At(r);
  }

  lemma NinthsIncrease(q: nat, c: nat, r: nat, d: nat, j: nat, l: nat)
    requires c < 9 && d < 9 && j == 9 * q + c && l == 9 * r + d && j < l
    ensures MotherIndex(RATE72_162, j) < MotherIndex(RATE72_162, l)
  {
    Rate72At(q, c, j);
    Rate72At(r, d, l);
  }

  method RcpcDepunct<T>(pu: Puncturer, input: seq<T>, erased: T, output: array<T>)
    requires WellFormed(pu) && forall j :: 0 <= j < |input| ==> MotherIndex(pu, j) < output.Length
    modifies output
    ensures IsDepunctured(pu, input, output[..], erased)
  {
    for i := 0 to output.Length
      invariant forall k :: 0 <= k < i ==> output[k] == erased
    {
      output[i] := erased;
    }
    assert input[..0] == [];
    for j := 1 to |input| + 1
      invariant IsDepunctured(pu, input[..j - 1], output[..], erased)
    {
      var k := TablePosition(pu, j);
      if k - 1 < output.Length {
        PlaceNext(pu, input, j - 1, output[..], erased);
        output[k - 1] := input[j - 1];
      }
    }
    assert input[..|input|] == input;
  }

  /** One-based mother position of one-based punctured bit j, from the puncturer's table. */
  method TablePosition(pu: Puncturer, j: nat) returns (k: nat)
    requires WellFormed(pu) && j >= 1
    ensures k == MotherIndex(pu, j - 1) + 1
  {
    var blk := (j - 1) / pu.t;
    var idx := j - pu.t * blk;
    TableEntry(pu, (j - 1) % pu.t);
    k := pu.period * blk + pu.p[idx];
  }

  lemma TableEntry(pu: Puncturer, c: nat)
    requires WellFormed(pu) && c < pu.t
    ensures c + 1 < |pu.p| && pu.p[c + 1] == PeriodPosition(pu, c) + 1
  {
  }

  lemma PlaceNext<T>(pu: Puncturer, input: seq<T>, j: nat, out: seq<T>, erased: T)
    requires WellFormed(pu) && j < |input| && MotherIndex(pu, j) < |out|
    requires IsDepunctured(pu, input[..j], out, erased)
    ensures IsDepunctured(pu, input[..j + 1], out[MotherIndex(pu, j) := input[j]], erased)
  {
    var next := out[MotherIndex(pu, j) := input[j]];
    forall l | 0 <= l < j
      ensures MotherIndex(pu, l) != MotherIndex(pu, j)
    {
      MotherIndexIncreases(pu, l, j);
    }
    forall k | 0 <= k < |out| && forall l :: 0 <= l < j + 1 ==> MotherIndex(pu, l) != k
      ensures next[k] == erased
    {
      assert MotherIndex(pu, j) != k;
    }
  }

  /** Value m of step i of the depunctured stream: the received one if it was kept. */
  function KeptValue<T>(y: seq<T>, base: nat, i: nat, m: nat, erased: T): T {
    if m < KeepCount(i) && Offset(base) <= Offset(i) && Offset(i) - Offset(base) + m < |y|
    then y[Offset(i) - Offset(base) + m] else erased
  }

  /** Depuncturing n steps puts every received value back at its step and output. */
  lemma DepuncturedStep<T>(pu: Puncturer, y: seq<T>, base: nat, n: nat, out: seq<T>, erased: T, i: nat, m: nat)
    requires WellFormed(pu) && NamesKept(pu, base, n) && IsDepunctured(pu, y, out, erased)
    requires |out| == 3 * n && Offset(base + n) == Offset(base) + |y|
    requires base <= i < base + n && m < 3
    ensures out[3 * (i - base) + m] == KeptValue(y, base, i, m, erased)
  {
    OffsetMonotone(base, i);
    OffsetMonotone(i + 1, base + n);
    OffsetAfter(i, i + 1);
    if m < KeepCount(i) {
      assert Hits(pu, base, i, m);
      ReadPlaced(pu, y, out, erased, Offset(i) - Offset(base) + m);
    } else {
      Unnamed(pu, base, n, |y|, i, m, 3 * (i - base) + m);
    }
  }

  lemma ReadPlaced<T>(pu: Puncturer, y: seq<T>, out: seq<T>, erased: T, j: nat)
    requires WellFormed(pu) && IsDepunctured(pu, y, out, erased) && j < |y|
    ensures MotherIndex(pu, j) < |out| && out[MotherIndex(pu, j)] == y[j]
  {
  }

  /** No received value belongs to a punctured output. */
  lemma Unnamed(pu: Puncturer, base: nat, n: nat, length: nat, i: nat, m: nat, k: nat)
    requires WellFormed(pu) && NamesKept(pu, base, n) && Offset(base + n) == Offset(base) + length
    requires base <= i < base + n && KeepCount(i) <= m < 3 && k == 3 * (i - base) + m
    ensures forall j :: 0 <= j < length ==> MotherIndex(pu, j) != k
  {
    forall j | 0 <= j < length
      ensures MotherIndex(pu, j) != k
    {
      var i', m' := Locate(pu, base, n, j);
    }
  }
}
