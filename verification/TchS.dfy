/**
 * The TCH/S chain for one burst of two speech frames: unprotected class 0, and class 1 and class 2
 * with check and tail bits through one continuous code (ETSI EN 300 395-2 sections 5.4 and 5.5).
 */
module TchS {
  import opened BitSeq
  import opened Trellis
  import opened ConvCode
  import opened BranchMetrics
  import opened ChannelCodec
  import opened Scrambler
  import opened BlockInterleaver
  import opened SpeechCode
  import opened SpeechMetrics
  import opened SpeechViterbi
  import opened SpeechOrder
  import opened SpeechPuncture
  import opened SpeechEncoder
  import Crc = SpeechCrc

  const CLASS0_BITS: nat := 102
  const CLASS2_BITS: nat := 60
  const CLASS2_TYPE2: nat := 72
  const STEPS: nat := 184
  const CLASS1_TYPE3: nat := 168
  const CLASS2_TYPE3: nat := 162
  const CODED_BITS: nat := 330

  lemma CodedLengths(n: nat)
    requires n == STEPS
    ensures Offset(0) == 0 && Offset(CLASS1_BITS) == CLASS1_TYPE3 && Offset(n) == CODED_BITS
  {
    OffsetInClass2(0);
    OffsetInClass2(18);
  }

  /** Class 1, class 2, check and tail bits of class-ordered bits. */
  function Protected(type1: seq<bool>): (x: seq<bool>)
    requires |type1| == BURST_BITS
    ensures |x| == STEPS
  {
    type1[CLASS0_BITS..] + Crc.CheckBits(type1[CLASS0_BITS + CLASS1_BITS..]) + Zeros(4)
  }

  function Type3(type1: seq<bool>): (s: seq<bool>)
    requires |type1| == BURST_BITS
    ensures |s| == BLOCK_BITS
  {
    CodedLengths(STEPS);
    type1[..CLASS0_BITS] + SpeechCodeword(Protected(type1))
  }

  /** The burst that carries the two frames. */
  function SpeechTransmitted(t: ClassTables, acelp: seq<bool>, init: bv32): (block: seq<bool>)
    requires t.Valid() && |acelp| == BURST_BITS
    ensures |block| == BLOCK_BITS
  {
    Scrambled(BlockInterleaved(Type3(ToChannel(t, acelp))), init)
  }

  /** What the decoder makes of class 0 bits and the decoded steps. */
  ghost function Frames(t: ClassTables, class0: seq<bool>, x: seq<bool>): (acelp: seq<bool>)
    requires t.Valid() && |class0| == CLASS0_BITS && |x| == STEPS
    ensures |acelp| == BURST_BITS
  {
    ToCodec(t, class0 + x[..CLASS1_BITS + CLASS2_BITS])
  }

  function ReturnCode(x: seq<bool>): (rc: int)
    requires |x| == STEPS
    ensures rc == 0 || rc == -1
  {
    if Crc.Accepts(x[CLASS1_BITS..STEPS - 4]) then 0 else -1
  }

  /** Received bits in the order in which they were coded. */
  function Type3Received(block: seq<bool>, init: bv32): (s: seq<bool>)
    requires |block| == BLOCK_BITS
    ensures |s| == BLOCK_BITS
  {
    BlockDeinterleaved(Scrambled(block, init))
  }

  function DecodedSteps(y: seq<int>): (x: seq<bool>)
    requires |y| == CODED_BITS
    ensures |x| == STEPS
  {
    CodedLengths(STEPS);
    SpeechDecoded(y, STEPS)
  }

  /** The bits that the 16-bit decoder makes of received class 1 and class 2 values. */
  function Steps16(y: seq<int>): (x: seq<bool>)
    requires |y| == CODED_BITS
    ensures |x| == STEPS
  {
    CodedLengths(STEPS);
    Decode16(SpeechDepunctured(y, STEPS), STEPS)
  }

  // ---- Encoder ----

  /** Puncturing the mother bits of steps base on gives the codeword from there on. */
  lemma CodedClass(pu: Puncturer, x: seq<bool>, base: nat, n: nat, mother: seq<bool>, length: nat)
    requires WellFormed(pu) && NamesKept(pu, base, n) && base + n == |x|
    requires SpeechEncode(x)[3 * base..] == mother && Offset(base) + length == Offset(|x|)
    ensures forall j: nat :: j < length ==> MotherIndex(pu, j) < |mother|
    ensures Punctured(pu, mother, length) == SpeechCodeword(x)[Offset(base)..]
  {
    CodewordAgrees(x, base + n);
    PuncturedSuffix(pu, SpeechEncode(x), SpeechCodeword(x), base, n, mother, length, Offset(base));
  }

  lemma PuncturedSuffix(pu: Puncturer, coded: seq<bool>, code: seq<bool>, base: nat, n: nat, mother: seq<bool>, length: nat,
                        from: nat)
    requires WellFormed(pu) && NamesKept(pu, base, n) && Agree(coded, code, base + n)
    requires |code| == Offset(base + n) && from == Offset(base) && from + length == |code|
    requires |coded| == 3 * (base + n) && coded[3 * base..] == mother
    ensures forall j: nat :: j < length ==> MotherIndex(pu, j) < |mother|
    ensures Punctured(pu, mother, length) == code[from..]
  {
    forall j: nat | j < length
      ensures Same(coded, 3 * base + MotherIndex(pu, j), code, from + j)
    {
      TableReads(pu, coded, code, base, n, j, from, MotherIndex(pu, j));
    }
    ReadsSuffix(pu, coded, 3 * base, code, from, mother, length);
  }

  lemma ReadsSuffix(pu: Puncturer, coded: seq<bool>, a: nat, code: seq<bool>, from: nat, mother: seq<bool>, length: nat)
    requires WellFormed(pu) && a <= |coded| && coded[a..] == mother && from + length == |code|
    requires forall j: nat :: j < length ==> Same(coded, a + MotherIndex(pu, j), code, from + j)
    ensures forall j: nat :: j < length ==> MotherIndex(pu, j) < |mother|
    ensures Punctured(pu, mother, length) == code[from..]
  {
    forall j: nat | j < length
      ensures MotherIndex(pu, j) < |mother| && mother[MotherIndex(pu, j)] == code[from..][j]
    {
      assert Same(coded, a + MotherIndex(pu, j), code, from + j);
    }
  }

  /** Codes and punctures one class as a continuation of the delay line's history. */
  method CodeClass(line: DelayLine, input: seq<bool>, pu: Puncturer, length: nat) returns (coded: array<bool>)
    requires line.Valid() && WellFormed(pu) && NamesKept(pu, |line.history|, |input|)
    requires Offset(|line.history|) + length == Offset(|line.history| + |input|)
    modifies line
    ensures line.Valid() && line.history == old(line.history) + input
    ensures fresh(coded) && coded.Length == length
    ensures coded[..] == SpeechCodeword(line.history)[Offset(|old(line.history)|)..]
  {
    ghost var base := |line.history|;
    var mother := new bool[3 * |input|];
    line.Encode(input, mother);
    assert SpeechEncode(line.history)[3 * base..] == mother[..];
    CodedClass(pu, line.history, base, |input|, mother[..], length);
    coded := new bool[length];
    RcpcPunct(pu, mother[..], length, coded);
  }

  /** Data, check and tail bits of class 2. */
  function Class2Type2(class2: seq<bool>): (s: seq<bool>)
    requires |class2| == CLASS2_BITS
    ensures |s| == CLASS2_TYPE2
  {
    class2 + Crc.CheckBits(class2) + Zeros(4)
  }

  /** Both classes through one delay line. */
  method CodeBothClasses(class1: seq<bool>, class2: seq<bool>) returns (coded1: array<bool>, coded2: array<bool>)
    requires |class1| == CLASS1_BITS && |class2| == CLASS2_BITS
    ensures fresh(coded1) && coded1.Length == CLASS1_TYPE3 && fresh(coded2) && coded2.Length == CLASS2_TYPE3
    ensures coded1[..] + coded2[..] == SpeechCodeword(class1 + Class2Type2(class2))
  {
    CodedLengths(STEPS);
    Class1NamesKept(CLASS1_BITS);
    Class2NamesKept(CLASS2_TYPE2);
    var line := new DelayLine();
    coded1 := CodeClass(line, class1, RATE112_168, CLASS1_TYPE3);
    assert line.history == class1;
    var crc := new bool[8];
    Crc.SpeechCrc(class2, crc);
    coded2 := CodeClass(line, class2 + crc[..] + Zeros(4), RATE72_162, CLASS2_TYPE3);
    WholeCode(class1, line.history, coded1[..], coded2[..]);
  }

  method EncodeType3(type1: seq<bool>, type3: array<bool>)
    requires |type1| == BURST_BITS && type3.Length == BLOCK_BITS
    modifies type3
    ensures type3[..] == Type3(type1)
  {
    var class1, class2 := type1[CLASS0_BITS..CLASS0_BITS + CLASS1_BITS], type1[CLASS0_BITS + CLASS1_BITS..];
    var coded1, coded2 := CodeBothClasses(class1, class2);
    Put(type3, 0, type1[..CLASS0_BITS]);
    Put(type3, CLASS0_BITS, coded1[..]);
    Put(type3, CLASS0_BITS + CLASS1_TYPE3, coded2[..]);
    ProtectedInParts(type1);
    ThreeParts(type3[..], type1[..CLASS0_BITS], coded1[..], coded2[..]);
  }

  lemma ThreeParts(s: seq<bool>, a: seq<bool>, b: seq<bool>, c: seq<bool>)
    requires |s| == |a| + |b| + |c| && s[..|a| + |b| + |c|] == (a + b) + c
    ensures s == a + (b + c)
  {
  }

  lemma ProtectedInParts(type1: seq<bool>)
    requires |type1| == BURST_BITS
    ensures Protected(type1) == type1[CLASS0_BITS..CLASS0_BITS + CLASS1_BITS] + Class2Type2(type1[CLASS0_BITS + CLASS1_BITS..])
  {
    assert type1[CLASS0_BITS..] == type1[CLASS0_BITS..CLASS0_BITS + CLASS1_BITS] + type1[CLASS0_BITS + CLASS1_BITS..];
  }

  lemma WholeCode(x1: seq<bool>, x: seq<bool>, coded1: seq<bool>, coded2: seq<bool>)
    requires |x1| <= |x| && x[..|x1|] == x1 && Offset(|x1|) <= Offset(|x|)
    requires coded1 == SpeechCodeword(x1)[Offset(0)..] && coded2 == SpeechCodeword(x)[Offset(|x1|)..]
    ensures coded1 + coded2 == SpeechCodeword(x)
  {
    CodewordPrefix(x, |x1|);
    Halves(SpeechCodeword(x), Offset(|x1|));
  }

  lemma Halves(s: seq<bool>, k: nat)
    requires k <= |s|
    ensures s == s[..k] + s[k..]
  {
  }

  method Encode(t: ClassTables, acelp: seq<bool>, init: bv32, out: array<bool>) returns (rc: int)
    requires t.Valid() && |acelp| == BURST_BITS && out.Length == BLOCK_BITS
    modifies out
    ensures rc == 0 && out[..] == SpeechTransmitted(t, acelp, init)
  {
    var type1 := new bool[BURST_BITS];
    CodecToChannel(t, acelp, type1);
    var type3 := new bool[BLOCK_BITS];
    EncodeType3(type1[..], type3);
    var type4 := new bool[BLOCK_BITS];
    InterleaveSpeech(type3[..], type4);
    Scramble(type4[..], init, out);
    rc := 0;
  }

  // ---- Depuncturing both classes ----

  lemma MotherFits(pu: Puncturer, base: nat, n: nat, length: nat)
    requires WellFormed(pu) && NamesKept(pu, base, n) && Offset(base) + length == Offset(base + n)
    ensures forall j :: 0 <= j < length ==> MotherIndex(pu, j) < 3 * n
  {
    forall j | 0 <= j < length
      ensures MotherIndex(pu, j) < 3 * n
    {
      var i, m := Locate(pu, base, n, j);
    }
  }

  /** The two depunctured classes in a row are the depunctured stream. */
  lemma CombinedMother(y: seq<int>, m1: seq<int>, m2: seq<int>, n: nat)
    requires |y| == CODED_BITS == Offset(n) && n == STEPS && |m1| == 3 * CLASS1_BITS && |m2| == 3 * CLASS2_TYPE2
    requires IsDepunctured(RATE112_168, y[..CLASS1_TYPE3], m1, 0)
    requires IsDepunctured(RATE72_162, y[CLASS1_TYPE3..], m2, 0)
    ensures m1 + m2 == SpeechDepunctured(y, n)
  {
    Class1NamesKept(CLASS1_BITS);
    Class2NamesKept(CLASS2_TYPE2);
    forall k | 0 <= k < 3 * n
      ensures (m1 + m2)[k] == SpeechDepunctured(y, n)[k]
    {
      var i, m := k / 3, k % 3;
      if i < CLASS1_BITS {
        Class1Value(y, m1, n, i, m);
      } else {
        Class2Value(y, m2, n, i, m);
      }
    }
  }

  lemma SpreadValue(y: seq<int>, n: nat, i: nat, m: nat)
    requires Offset(n) == |y| && i < n && m < 3
    ensures Offset(i) + KeepCount(i) <= |y|
    ensures SpeechDepunctured(y, n)[3 * i + m] == if m < KeepCount(i) then y[Offset(i) + m] else 0
  {
    DepuncturedAt(y, n, i);
    OffsetAfter(i, i + 1);
    SliceAt(SpeechDepunctured(y, n), 3 * i, m, 3 * i + m, Spread(y, i));
    SpreadAt(y, i, m);
  }

  lemma SpreadAt(y: seq<int>, i: nat, m: nat)
    requires Offset(i + 1) <= |y| && Offset(i) + KeepCount(i) <= |y| && m < 3
    ensures Spread(y, i)[m] == if m < KeepCount(i) then y[Offset(i) + m] else 0
  {
    if m == 0 {
    } else if m == 1 {
    } else {
      assert m == 2;
    }
  }

  lemma SliceAt<T>(s: seq<T>, a: nat, m: nat, k: nat, r: seq<T>)
    requires a + 3 <= |s| && m < 3 && k == a + m && s[a..a + 3] == r
    ensures s[k] == r[m]
  {
  }

  lemma Class1Value(y: seq<int>, m1: seq<int>, n: nat, i: nat, m: nat)
    requires |y| == CODED_BITS == Offset(n) && n == STEPS && |m1| == 3 * CLASS1_BITS && i < CLASS1_BITS && m < 3
    requires NamesKept(RATE112_168, 0, CLASS1_BITS) && IsDepunctured(RATE112_168, y[..CLASS1_TYPE3], m1, 0)
    ensures m1[3 * i + m] == SpeechDepunctured(y, n)[3 * i + m]
  {
    CodedLengths(n);
    SpreadValue(y, n, i, m);
    DepuncturedStep(RATE112_168, y[..CLASS1_TYPE3], 0, CLASS1_BITS, m1, 0, i, m);
    OffsetMonotone(i + 1, CLASS1_BITS);
    OffsetAfter(i, i + 1);
  }

  lemma Class2Value(y: seq<int>, m2: seq<int>, n: nat, i: nat, m: nat)
    requires |y| == CODED_BITS == Offset(n) && n == STEPS && |m2| == 3 * CLASS2_TYPE2 && CLASS1_BITS <= i < n && m < 3
    requires NamesKept(RATE72_162, CLASS1_BITS, CLASS2_TYPE2) && IsDepunctured(RATE72_162, y[CLASS1_TYPE3..], m2, 0)
    ensures m2[3 * (i - CLASS1_BITS) + m] == SpeechDepunctured(y, n)[3 * i + m]
  {
    CodedLengths(n);
    SpreadValue(y, n, i, m);
    DepuncturedStep(RATE72_162, y[CLASS1_TYPE3..], CLASS1_BITS, CLASS2_TYPE2, m2, 0, i, m);
    OffsetMonotone(CLASS1_BITS, i);
    ShiftedValue(y, CLASS1_BITS, CLASS1_TYPE3, i, m);
  }

  /** Values counted from step base are values after base's offset. */
  lemma ShiftedValue(y: seq<int>, base: nat, from: nat, i: nat, m: nat)
    requires from == Offset(base) <= Offset(i) && Offset(i) + KeepCount(i) <= |y|
    ensures KeptValue(y[from..], base, i, m, 0) == if m < KeepCount(i) then y[Offset(i) + m] else 0
  {
  }
}
