/** The TCH/S decoders, hard and soft, and what they guarantee end to end. */
module TchSDecoder {
  import opened BitSeq
  import opened Trellis
  import opened ConvCode
  import opened BranchMetrics
  import opened CodeDistance
  import opened ErrorCorrection
  import opened ChannelCodec
  import opened Scrambler
  import opened Viterbi
  import opened BlockInterleaver
  import opened SpeechCode
  import opened SpeechMetrics
  import opened SpeechViterbi
  import opened SpeechBurst
  import opened SpeechOrder
  import opened SpeechPuncture
  import opened TchS
  import ControlChannels
  import Crc = SpeechCrc
  import CrcDistance = SpeechCrcDistance

  // ---- Shared steps ----

  method DepunctureClass<T(0)>(coded: seq<T>, pu: Puncturer, ghost base: nat, n: nat, erased: T) returns (mother: array<T>)
    requires WellFormed(pu) && NamesKept(pu, base, n) && Offset(base) + |coded| == Offset(base + n)
    ensures fresh(mother) && mother.Length == 3 * n && IsDepunctured(pu, coded, mother[..], erased)
  {
    MotherFits(pu, base, n, |coded|);
    mother := new T[3 * n];
    RcpcDepunct(pu, coded, erased, mother);
  }

  method DepunctureBoth<T(0)>(coded: seq<T>, erased: T) returns (m1: array<T>, m2: array<T>)
    requires |coded| == CODED_BITS
    ensures fresh(m1) && m1.Length == 3 * CLASS1_BITS && fresh(m2) && m2.Length == 3 * CLASS2_TYPE2
    ensures IsDepunctured(RATE112_168, coded[..CLASS1_TYPE3], m1[..], erased)
    ensures IsDepunctured(RATE72_162, coded[CLASS1_TYPE3..], m2[..], erased)
  {
    CodedLengths(STEPS);
    Class1NamesKept(CLASS1_BITS);
    Class2NamesKept(CLASS2_TYPE2);
    m1 := DepunctureClass(coded[..CLASS1_TYPE3], RATE112_168, 0, CLASS1_BITS, erased);
    m2 := DepunctureClass(coded[CLASS1_TYPE3..], RATE72_162, CLASS1_BITS, CLASS2_TYPE2, erased);
  }

  /** Viterbi decoding of n steps. */
  method RunViterbi(soft: seq<int>, n: nat) returns (decoded: array<bool>)
    requires 3 * n <= |soft| && AllInt8(soft)
    ensures fresh(decoded) && decoded.Length == n && decoded[..] == Decode16(soft, n)
  {
    decoded := new bool[n];
    ViterbiSpeech(soft, n, decoded);
    assert decoded[..n] == decoded[..];
  }

  lemma CombinedSteps(y: seq<int>, m1: seq<int>, m2: seq<int>, n: nat)
    requires |y| == CODED_BITS && n == STEPS && |m1| == 3 * CLASS1_BITS && |m2| == 3 * CLASS2_TYPE2 && AllInt8(y)
    requires IsDepunctured(RATE112_168, y[..CLASS1_TYPE3], m1, 0) && IsDepunctured(RATE72_162, y[CLASS1_TYPE3..], m2, 0)
    ensures AllInt8(m1 + m2) && Steps16(y) == Decode16(m1 + m2, n)
  {
    CodedLengths(n);
    CombinedMother(y, m1, m2, n);
    DepuncturedInt8(y, n);
  }

  lemma {:induction false} DepuncturedInt8(y: seq<int>, n: nat)
    requires Offset(n) <= |y| && AllInt8(y)
    ensures AllInt8(SpeechDepunctured(y, n))
  {
    if n > 0 {
      DepuncturedInt8(y, n - 1);
      SpreadInt8(y, n - 1);
      Int8Append(SpeechDepunctured(y, n - 1), Spread(y, n - 1));
    }
  }

  lemma SpreadInt8(y: seq<int>, i: nat)
    requires Offset(i + 1) <= |y| && AllInt8(y)
    ensures AllInt8(Spread(y, i))
  {
  }

  lemma Int8Append(s: seq<int>, r: seq<int>)
    requires AllInt8(s) && AllInt8(r)
    ensures AllInt8(s + r)
  {
  }

  /** Check of the class 2 bits and return to the two frames. */
  method Finish(t: ClassTables, class0: seq<bool>, decoded: seq<bool>, acelp: array<bool>) returns (rc: int)
    requires t.Valid() && |class0| == CLASS0_BITS && |decoded| == STEPS && acelp.Length == BURST_BITS
    modifies acelp
    ensures acelp[..] == Frames(t, class0, decoded) && rc == ReturnCode(decoded)
  {
    var class2, received := decoded[CLASS1_BITS..CLASS1_BITS + CLASS2_BITS], decoded[CLASS1_BITS + CLASS2_BITS..STEPS - 4];
    var ok := CheckMatches(class2, received);
    ghost var word := decoded[CLASS1_BITS..STEPS - 4];
    assert word[..CLASS2_BITS] == class2 && word[CLASS2_BITS..] == received;
    ChannelToCodec(t, class0 + decoded[..CLASS1_BITS + CLASS2_BITS], acelp);
    rc := if ok then 0 else -1;
  }

  method CheckMatches(class2: seq<bool>, received: seq<bool>) returns (ok: bool)
    requires |class2| == CLASS2_BITS && |received| == 8
    ensures ok == (Crc.CheckBits(class2) == received)
  {
    var expected := new bool[8];
    Crc.SpeechCrc(class2, expected);
    ok := true;
    for i := 0 to 8
      invariant ok ==> expected[..i] == received[..i]
      invariant ok
    {
      if expected[i] != received[i] {
        ok := false;
        assert expected[..][i] != received[i];
        break;
      }
    }
  }

  // ---- Hard decoder ----

  /** Depuncturing known bits and then softening is depuncturing of the soft values. */
  lemma SoftenDepunctured(pu: Puncturer, bits: seq<bool>, known: seq<Symbol>, y: seq<int>, mother: seq<Symbol>,
                          out: seq<int>)
    requires WellFormed(pu) && known == Symbols(bits) && y == SoftBits(bits, 1) && out == SoftSymbols(mother, 1)
    requires IsDepunctured(pu, known, mother, Erasure)
    ensures IsDepunctured(pu, y, out, 0)
  {
    forall k | 0 <= k < |out| && forall j :: 0 <= j < |y| ==> MotherIndex(pu, j) != k
      ensures out[k] == 0
    {
      assert mother[k] == Erasure;
    }
    forall j | 0 <= j < |y|
      ensures MotherIndex(pu, j) < |out| && out[MotherIndex(pu, j)] == y[j]
    {
      assert mother[MotherIndex(pu, j)] == known[j];
    }
  }

  /** -1 for 0, +1 for 1 and 0 for an erasure. */
  method ToUnitSoft(combined: seq<Symbol>) returns (soft: seq<int>)
    ensures soft == SoftSymbols(combined, 1)
  {
    soft := [];
    for i := 0 to |combined|
      invariant soft == SoftSymbols(combined[..i], 1)
    {
      soft := soft + [if combined[i] == Known(false) then -1 else if combined[i] == Known(true) then 1 else 0];
    }
    assert combined[..|combined|] == combined;
  }

  lemma UnitIsExact(coded: seq<bool>, y: seq<int>)
    requires |coded| == CODED_BITS && y == SoftBits(coded, 1)
    ensures AllInt8(y) && Steps16(y) == DecodedSteps(y)
  {
    SmallIsExact(y, 1);
  }

  lemma CodedHalves(coded: seq<bool>, known: seq<Symbol>, y: seq<int>, n: nat)
    requires known == Symbols(coded) && y == SoftBits(coded, 1) && n <= |coded|
    ensures known[..n] == Symbols(coded[..n]) && known[n..] == Symbols(coded[n..])
    ensures y[..n] == SoftBits(coded[..n], 1) && y[n..] == SoftBits(coded[n..], 1)
  {
  }

  /** Depuncturing hard bits and decoding them as unit values. */
  lemma UnitSteps(coded: seq<bool>, known: seq<Symbol>, y: seq<int>, m1: seq<Symbol>, m2: seq<Symbol>, s1: seq<int>, s2: seq<int>,
                  n: nat)
    requires |coded| == CODED_BITS && known == Symbols(coded) && y == SoftBits(coded, 1) && n == STEPS
    requires |m1| == 3 * CLASS1_BITS && |m2| == 3 * CLASS2_TYPE2 && s1 == SoftSymbols(m1, 1) && s2 == SoftSymbols(m2, 1)
    requires IsDepunctured(RATE112_168, known[..CLASS1_TYPE3], m1, Erasure)
    requires IsDepunctured(RATE72_162, known[CLASS1_TYPE3..], m2, Erasure)
    ensures AllInt8(s1 + s2) && Decode16(s1 + s2, n) == DecodedSteps(y)
  {
    CodedHalves(coded, known, y, CLASS1_TYPE3);
    SoftenDepunctured(RATE112_168, coded[..CLASS1_TYPE3], known[..CLASS1_TYPE3], y[..CLASS1_TYPE3], m1, s1);
    SoftenDepunctured(RATE72_162, coded[CLASS1_TYPE3..], known[CLASS1_TYPE3..], y[CLASS1_TYPE3..], m2, s2);
    UnitIsExact(coded, y);
    CombinedSteps(y, s1, s2, n);
  }

  method DecodeCoded(coded: seq<bool>) returns (decoded: array<bool>)
    requires |coded| == CODED_BITS
    ensures fresh(decoded) && decoded.Length == STEPS && decoded[..] == DecodedSteps(SoftBits(coded, 1))
  {
    var known := ControlChannels.ToSymbols(coded);
    var m1, m2 := DepunctureBoth(known, Erasure);
    var soft := ToUnitSoft(m1[..] + m2[..]);
    ghost var s1, s2 := SoftSymbols(m1[..], 1), SoftSymbols(m2[..], 1);
    var n := |soft| / 3;
    assert soft == s1 + s2;
    UnitSteps(coded, known, SoftBits(coded, 1), m1[..], m2[..], s1, s2, n);
    decoded := RunViterbi(soft, n);
  }

  method Decode(t: ClassTables, type5: seq<bool>, init: bv32, acelp: array<bool>) returns (rc: int)
    requires t.Valid() && |type5| == BLOCK_BITS && acelp.Length == BURST_BITS
    modifies acelp
    ensures var s := Type3Received(type5, init);
            var x := DecodedSteps(SoftBits(s[CLASS0_BITS..], 1));
            acelp[..] == Frames(t, s[..CLASS0_BITS], x) && rc == ReturnCode(x)
  {
    var type4 := new bool[BLOCK_BITS];
    Scramble(type5, init, type4);
    var type3 := new bool[BLOCK_BITS];
    DeinterleaveSpeech(type4[..], type3);
    var decoded := DecodeCoded(type3[CLASS0_BITS..]);
    rc := Finish(t, type3[..CLASS0_BITS], decoded[..], acelp);
  }

  // ---- Soft decoder ----

  /** Negation of an 8-bit value; the smallest one becomes the largest. */
  function Negate8(x: int): int {
    if x == -128 then 127 else -x
  }

  function SoftScrambled8(soft: seq<int>, init: bv32): (r: seq<int>)
    ensures |r| == |soft|
  {
    var k := Keystream(Scrambler.Start(init), |soft|);
    seq(|soft|, i requires 0 <= i < |soft| => if k[i] then Negate8(soft[i]) else soft[i])
  }

  function Type3SoftReceived(soft: seq<int>, init: bv32): (s: seq<int>)
    requires |soft| == BLOCK_BITS
    ensures |s| == BLOCK_BITS
  {
    BlockDeinterleaved(SoftScrambled8(soft, init))
  }

  /** Hard decisions by sign; 0 counts as a 0 bit. */
  function Signs(y: seq<int>): (b: seq<bool>)
    ensures |b| == |y|
  {
    seq(|y|, i requires 0 <= i < |y| => y[i] > 0)
  }

  lemma SoftScrambledAt(soft: seq<int>, init: bv32, i: nat)
    requires i < |soft|
    ensures SoftScrambled8(soft, init)[i]
            == if !Scrambler.Stream(init, |soft|)[32 + i] then soft[i] else if soft[i] == -128 then 127 else -soft[i]
  {
    assert Scrambler.Stream(init, |soft|)[32 + i] == Keystream(Scrambler.Start(init), |soft|)[i];
  }

  lemma SignAt(y: seq<int>, j: nat)
    requires j < 102 <= |y|
    ensures Signs(y[..102])[j] == (y[j] > 0)
  {
  }

  /**
   * The value decoded for type-3 bit 18 line + col is the one at its place on the air, with the sign
   * changed where the cell's stream is 1 and -128 turned into 127; a class 0 bit is 1 if it is positive.
   */
  lemma SoftValueOnAir(softs: seq<int>, init: bv32, line: nat, col: nat, j: nat, k: nat)
    requires |softs| == 432 && line < 24 && col < 18 && j == 18 * line + col && k == 24 * col + line
    ensures j < 432 && k < 432
    ensures var s := Type3SoftReceived(softs, init);
            && (s[j] == if !Scrambler.Stream(init, 432)[32 + k] then softs[k] else if softs[k] == -128 then 127 else -softs[k])
            && (j < 102 ==> Signs(s[..102])[j] == (s[j] > 0))
  {
    MatrixBit(SoftScrambled8(softs, init), line, col);
    SoftScrambledAt(softs, init, k);
    if j < 102 {
      SignAt(Type3SoftReceived(softs, init), j);
    }
  }

  method ScrambleSoft8(input: seq<int>, init: bv32, out: array<int>)
    requires out.Length == |input|
    modifies out
    ensures out[..] == SoftScrambled8(input, init)
  {
    var lfsr := init;
    if lfsr == 0 {
      lfsr := 0xFFFFFFFF;
    }
    ghost var start := Scrambler.Start(init);
    ghost var key := Keystream(start, |input|);
    for i := 0 to |input|
      invariant lfsr == StateAt(start, i)
      invariant forall j :: 0 <= j < i ==> out[j] == if key[j] then Negate8(input[j]) else input[j]
    {
      var bit;
      bit, lfsr := NextLfsrBit(lfsr);
      KeystreamAt(start, |input|, i);
      out[i] := if bit == 1 then (if input[i] == -128 then 127 else -input[i]) else input[i];
    }
  }

  /** The soft decoder, on all 8-bit values. */
  method DecodeSofti8(t: ClassTables, softs: seq<int>, init: bv32, acelp: array<bool>) returns (rc: int)
    requires t.Valid() && |softs| == BLOCK_BITS && acelp.Length == BURST_BITS && AllInt8(softs)
    modifies acelp
    ensures var s := Type3SoftReceived(softs, init);
            var x := Steps16(s[CLASS0_BITS..]);
            acelp[..] == Frames(t, Signs(s[..CLASS0_BITS]), x) && rc == ReturnCode(x)
  {
    var soft4 := new int[BLOCK_BITS];
    ScrambleSoft8(softs, init, soft4);
    var soft3 := new int[BLOCK_BITS];
    DeinterleaveSpeech(soft4[..], soft3);
    ghost var y := soft3[CLASS0_BITS..];
    Type3Int8(softs, init, soft3[..]);
    var class0 := seq(CLASS0_BITS, i requires 0 <= i < CLASS0_BITS reads soft3 => soft3[i] > 0);
    assert class0 == Signs(soft3[..CLASS0_BITS]);
    var m1, m2 := DepunctureBoth(soft3[CLASS0_BITS..], 0);
    var soft := m1[..] + m2[..];
    var n := |soft| / 3;
    CombinedSteps(y, m1[..], m2[..], n);
    var decoded := RunViterbi(soft, n);
    rc := Finish(t, class0, decoded[..], acelp);
  }

  lemma Type3Int8(softs: seq<int>, init: bv32, s: seq<int>)
    requires |softs| == BLOCK_BITS && s == Type3SoftReceived(softs, init) && AllInt8(softs)
    ensures AllInt8(s)
  {
  }

  // ---- End-to-end guarantees ----

  /** The hard decoder's bits for a block. */
  function HardSteps(block: seq<bool>, init: bv32): (x: seq<bool>)
    requires |block| == BLOCK_BITS
  {
    DecodedSteps(SoftBits(Type3Received(block, init)[CLASS0_BITS..], 1))
  }

  lemma ProtectedTerminated(type1: seq<bool>)
    requires |type1| == BURST_BITS
    ensures Terminated(Protected(type1))
  {
    TerminatedTaps(Protected(type1));
  }

  /** Restored steps pass the check, and the frames differ from the sent ones exactly in class 0. */
  lemma RestoredSteps(t: ClassTables, acelp: seq<bool>, class0: seq<bool>, x: seq<bool>)
    requires t.Valid() && |acelp| == BURST_BITS && |class0| == CLASS0_BITS && x == Protected(ToChannel(t, acelp))
    ensures ReturnCode(x) == 0
    ensures Distance(Frames(t, class0, x), acelp) == Distance(class0, ToChannel(t, acelp)[..CLASS0_BITS])
  {
    var type1 := ToChannel(t, acelp);
    CheckHolds(type1);
    ToCodecDistance(t, class0 + type1[CLASS0_BITS..], type1);
    ReorderRoundTrip(t, acelp);
    SameRest(class0, type1, CLASS0_BITS);
    ProtectedFront(type1);
  }

  lemma ProtectedFront(type1: seq<bool>)
    requires |type1| == BURST_BITS
    ensures Protected(type1)[..CLASS1_BITS + CLASS2_BITS] == type1[CLASS0_BITS..]
  {
  }

  lemma SameRest(a: seq<bool>, s: seq<bool>, n: nat)
    requires |a| == n <= |s|
    ensures Distance(a + s[n..], s) == Distance(a, s[..n])
  {
    DistanceAppend(a, s[..n], s[n..], s[n..]);
    assert s == s[..n] + s[n..];
    SelfDistance(s[n..]);
  }

  lemma CheckHolds(type1: seq<bool>)
    requires |type1| == BURST_BITS
    ensures ReturnCode(Protected(type1)) == 0
  {
    var class2 := type1[CLASS0_BITS + CLASS1_BITS..];
    var word := Protected(type1)[CLASS1_BITS..STEPS - 4];
    assert word == class2 + Crc.CheckBits(class2);
    assert word[..CLASS2_BITS] == class2 && word[CLASS2_BITS..] == Crc.CheckBits(class2);
  }

  /** Class 2 bits with their check bits. */
  function CheckedBits(x: seq<bool>): (word: seq<bool>)
    requires |x| == STEPS
    ensures |word| == CrcDistance.WORD_BITS
  {
    x[CLASS1_BITS..STEPS - 4]
  }

  /** With return code 0, class 2 and its check bits are as sent or wrong in four places or more. */
  lemma AcceptedIsRightOrFarOff(type1: seq<bool>, x: seq<bool>)
    requires |type1| == BURST_BITS && |x| == STEPS && ReturnCode(x) == 0
    ensures var sent, got := CheckedBits(Protected(type1)), CheckedBits(x); got == sent || Distance(sent, got) >= 4
  {
    var sent, got := CheckedBits(Protected(type1)), CheckedBits(x);
    CheckHolds(type1);
    if got != sent {
      DifferentHaveDistance(sent, got);
      if Distance(sent, got) <= 3 {
        CrcDistance.RejectsUpToThreeErrors(sent, got);
      }
    }
  }

  /**
   * Unequal protection of a burst: up to two wrong coded bits, at most one of them in class 1,
   * leave no trace, and every wrong class 0 bit costs exactly one bit of the frames.
   */
  lemma BurstSurvives(t: ClassTables, acelp: seq<bool>, s: seq<bool>)
    requires t.Valid() && |acelp| == BURST_BITS && |s| == BLOCK_BITS
    requires var sent := Type3(ToChannel(t, acelp));
             && Distance(s[CLASS0_BITS..], sent[CLASS0_BITS..]) <= 2
             && Distance(s[CLASS0_BITS..CLASS0_BITS + CLASS1_TYPE3], sent[CLASS0_BITS..CLASS0_BITS + CLASS1_TYPE3]) <= 1
    ensures var x := DecodedSteps(SoftBits(s[CLASS0_BITS..], 1));
            && ReturnCode(x) == 0
            && Distance(Frames(t, s[..CLASS0_BITS], x), acelp)
               == Distance(s[..CLASS0_BITS], Type3(ToChannel(t, acelp))[..CLASS0_BITS])
  {
    var type1 := ToChannel(t, acelp);
    var sent := Type3(type1);
    var x, y := Protected(type1), s[CLASS0_BITS..];
    CodedPart(type1);
    Nested(s);
    Nested(sent);
    ProtectedTerminated(type1);
    CodedLengths(STEPS);
    SpeechCorrects(y, x, CLASS1_TYPE3);
    RestoredSteps(t, acelp, s[..CLASS0_BITS], x);
  }

  lemma CodedPart(type1: seq<bool>)
    requires |type1| == BURST_BITS
    ensures Type3(type1)[CLASS0_BITS..] == SpeechCodeword(Protected(type1))
    ensures Type3(type1)[..CLASS0_BITS] == type1[..CLASS0_BITS]
  {
  }

  lemma Nested(s: seq<bool>)
    requires |s| == BLOCK_BITS
    ensures s[CLASS0_BITS..][..CLASS1_TYPE3] == s[CLASS0_BITS..CLASS0_BITS + CLASS1_TYPE3]
  {
  }

  lemma SpeechErrorsOnType3(t: ClassTables, acelp: seq<bool>, init: bv32, block: seq<bool>)
    requires t.Valid() && |acelp| == BURST_BITS && |block| == BLOCK_BITS
    ensures Distance(Type3Received(block, init), Type3(ToChannel(t, acelp)))
            <= Distance(block, SpeechTransmitted(t, acelp, init))
  {
    var sent := BlockInterleaved(Type3(ToChannel(t, acelp)));
    ScrambleTwice(sent, init);
    BlockRoundTrip(Type3(ToChannel(t, acelp)));
    BlockDeinterleavedNoFarther(Scrambled(block, init), sent);
    ScrambledDistance(block, Scrambled(sent, init), init);
  }

  /** Every burst survives every single flipped bit: the check passes and at most one class 0 bit is wrong. */
  lemma SpeechSurvivesOneFlip(t: ClassTables, acelp: seq<bool>, init: bv32, block: seq<bool>)
    requires t.Valid() && |acelp| == BURST_BITS && |block| == BLOCK_BITS
    requires Distance(block, SpeechTransmitted(t, acelp, init)) <= 1
    ensures var s := Type3Received(block, init);
            var x, sent := DecodedSteps(SoftBits(s[CLASS0_BITS..], 1)), Type3(ToChannel(t, acelp));
            && ReturnCode(x) == 0
            && Distance(Frames(t, s[..CLASS0_BITS], x), acelp) == Distance(s[..CLASS0_BITS], sent[..CLASS0_BITS])
            && (s[CLASS0_BITS..] != sent[CLASS0_BITS..] ==> Frames(t, s[..CLASS0_BITS], x) == acelp)
  {
    var s, sent := Type3Received(block, init), Type3(ToChannel(t, acelp));
    SpeechErrorsOnType3(t, acelp, init, block);
    SplitDistance(s, sent, CLASS0_BITS);
    CodedPrefixDistance(s, sent);
    BurstSurvives(t, acelp, s);
    if s[CLASS0_BITS..] != sent[CLASS0_BITS..] {
      DifferentHaveDistance(s[CLASS0_BITS..], sent[CLASS0_BITS..]);
      EqualHasNoDistance(Frames(t, s[..CLASS0_BITS], DecodedSteps(SoftBits(s[CLASS0_BITS..], 1))), acelp);
    }
  }

  /** Frames at no greater distance than their class 0 bits are right in class 1 and class 2. */
  lemma OnlyClass0Wrong(t: ClassTables, acelp: seq<bool>, class0: seq<bool>, x: seq<bool>)
    requires t.Valid() && |acelp| == BURST_BITS && |class0| == CLASS0_BITS && |x| == STEPS
    requires Distance(Frames(t, class0, x), acelp) == Distance(class0, ToChannel(t, acelp)[..CLASS0_BITS])
    ensures ToChannel(t, Frames(t, class0, x))[CLASS0_BITS..] == ToChannel(t, acelp)[CLASS0_BITS..]
  {
    var type1, got := ToChannel(t, acelp), class0 + x[..CLASS1_BITS + CLASS2_BITS];
    ReorderRoundTrip(t, acelp);
    ReorderRoundTrip(t, got);
    ToCodecDistance(t, got, type1);
    SplitDistance(got, type1, CLASS0_BITS);
    EqualHasNoDistance(got[CLASS0_BITS..], type1[CLASS0_BITS..]);
  }

  /** With the tables that the source lists, one flip costs at most one bit of the frames, and that in class 0. */
  lemma SourceTablesSurviveOneFlip(acelp: seq<bool>, init: bv32, block: seq<bool>)
    requires |acelp| == BURST_BITS && |block| == BLOCK_BITS
    requires Distance(block, SpeechTransmitted(Tables(), acelp, init)) <= 1
    ensures var x := HardSteps(block, init);
            var frames := Frames(Tables(), Type3Received(block, init)[..CLASS0_BITS], x);
            && ReturnCode(x) == 0 && Distance(frames, acelp) <= 1
            && ToChannel(Tables(), frames)[CLASS0_BITS..] == ToChannel(Tables(), acelp)[CLASS0_BITS..]
  {
    OneFlipStaysInClass0(Tables(), acelp, init, block);
  }

  lemma OneFlipStaysInClass0(t: ClassTables, acelp: seq<bool>, init: bv32, block: seq<bool>)
    requires t.Valid() && |acelp| == BURST_BITS && |block| == BLOCK_BITS
    requires Distance(block, SpeechTransmitted(t, acelp, init)) <= 1
    ensures var x := HardSteps(block, init);
            var frames := Frames(t, Type3Received(block, init)[..CLASS0_BITS], x);
            && ReturnCode(x) == 0 && Distance(frames, acelp) <= 1
            && ToChannel(t, frames)[CLASS0_BITS..] == ToChannel(t, acelp)[CLASS0_BITS..]
  {
    var s, sent := Type3Received(block, init), Type3(ToChannel(t, acelp));
    SpeechSurvivesOneFlip(t, acelp, init, block);
    CodedPart(ToChannel(t, acelp));
    OnlyClass0Wrong(t, acelp, s[..CLASS0_BITS], HardSteps(block, init));
    SpeechErrorsOnType3(t, acelp, init, block);
    SplitDistance(s, sent, CLASS0_BITS);
  }

  lemma DifferentHaveDistance(u: seq<bool>, v: seq<bool>)
    requires |u| == |v| && u != v
    ensures Distance(u, v) > 0
  {
    if Distance(u, v) == 0 {
      EqualHasNoDistance(u, v);
    }
  }

  lemma CodedPrefixDistance(s: seq<bool>, sent: seq<bool>)
    requires |s| == |sent| == BLOCK_BITS
    ensures var a, b := CLASS0_BITS, CLASS0_BITS + CLASS1_TYPE3;
            Distance(s[a..b], sent[a..b]) <= Distance(s[a..], sent[a..])
  {
    SplitDistance(s[CLASS0_BITS..], sent[CLASS0_BITS..], CLASS1_TYPE3);
    Nested(s);
    Nested(sent);
  }

  // ---- Soft against hard ----

  lemma SoftType3(block: seq<bool>, init: bv32, c: int)
    requires |block| == BLOCK_BITS && 0 < c < 128
    ensures Type3SoftReceived(SoftBits(block, c), init) == SoftBits(Type3Received(block, init), c)
  {
  }

  /** The soft decoder's bits for soft values. */
  function SoftSteps(softs: seq<int>, init: bv32): (x: seq<bool>)
    requires |softs| == BLOCK_BITS
  {
    Steps16(Type3SoftReceived(softs, init)[CLASS0_BITS..])
  }

  /** On values of magnitude c the soft decoder decodes every block to the hard decoder's bits. */
  ghost predicate SoftAgrees(init: bv32, c: int)
    requires 0 < c < 128
  {
    forall block: seq<bool> :: |block| == BLOCK_BITS ==> SoftSteps(SoftBits(block, c), init) == HardSteps(block, init)
  }

  lemma SoftStepsOfBits(block: seq<bool>, init: bv32, c: int)
    requires |block| == BLOCK_BITS && 0 < c < 128
    ensures var h := Type3Received(block, init);
            && Signs(Type3SoftReceived(SoftBits(block, c), init)[..CLASS0_BITS]) == h[..CLASS0_BITS]
            && SoftSteps(SoftBits(block, c), init) == Steps16(SoftBits(h[CLASS0_BITS..], c))
  {
    SoftType3(block, init, c);
    var s, h := Type3SoftReceived(SoftBits(block, c), init), Type3Received(block, init);
    assert s[CLASS0_BITS..] == SoftBits(h[CLASS0_BITS..], c);
  }

  /** Every order of type-3 bits is received from some block. */
  lemma ReceivedFromBlock(s: seq<bool>, init: bv32) returns (block: seq<bool>)
    requires |s| == BLOCK_BITS
    ensures |block| == BLOCK_BITS && Type3Received(block, init) == s
  {
    block := Scrambled(BlockInterleaved(s), init);
    ScrambleTwice(BlockInterleaved(s), init);
    BlockRoundTrip(s);
  }

  /**
   * On full-confidence values of magnitude c the soft decoder decodes every block to the hard
   * decoder's bits, and so to its frames and code, exactly when c is at most 99.
   */
  lemma SoftDecoderRefinesHard(init: bv32, c: int)
    requires 0 < c < 128
    ensures SoftAgrees(init, c) <==> c <= LARGEST_EXACT
    ensures forall block: seq<bool> :: |block| == BLOCK_BITS ==>
              Signs(Type3SoftReceived(SoftBits(block, c), init)[..CLASS0_BITS]) == Type3Received(block, init)[..CLASS0_BITS]
  {
    AgreesIffAtMost99(c);
    forall block: seq<bool> | |block| == BLOCK_BITS
      ensures Signs(Type3SoftReceived(SoftBits(block, c), init)[..CLASS0_BITS]) == Type3Received(block, init)[..CLASS0_BITS]
      ensures AgreesWithHard(c) ==> SoftSteps(SoftBits(block, c), init) == HardSteps(block, init)
    {
      SoftStepsOfBits(block, init, c);
    }
    if SoftAgrees(init, c) {
      forall coded: seq<bool> | |coded| == CODED_BITS
        ensures Steps16(SoftBits(coded, c)) == DecodedSteps(SoftBits(coded, 1))
      {
        AgreesOnCoded(coded, init, c);
      }
    }
  }

  lemma AgreesOnCoded(coded: seq<bool>, init: bv32, c: int)
    requires 0 < c < 128 && |coded| == CODED_BITS && SoftAgrees(init, c)
    ensures Steps16(SoftBits(coded, c)) == DecodedSteps(SoftBits(coded, 1))
  {
    var s := Zeros(CLASS0_BITS) + coded;
    var block := ReceivedFromBlock(s, init);
    SoftStepsOfBits(block, init, c);
    assert s[CLASS0_BITS..] == coded;
  }

  /**
   * Soft values tolerate weak positions: if f coded values are arbitrary up to magnitude most and
   * all others right with magnitude m or more, (m + most) * f < 4 * m suffices, as long as all
   * magnitudes together stay below 2^15.
   */
  lemma SoftBurstSurvives(t: ClassTables, acelp: seq<bool>, s: seq<int>, m: nat, most: nat)
    requires t.Valid() && |acelp| == BURST_BITS && |s| == BLOCK_BITS && AllInt8(s)
    requires Magnitude(s[CLASS0_BITS..], CODED_BITS) < 0x8000
    requires var sent := Type3(ToChannel(t, acelp))[CLASS0_BITS..];
             && WeakAtMost(s[CLASS0_BITS..], sent, m, most)
             && (m + most) * WeakCount(s[CLASS0_BITS..], sent, m) < 4 * m
    ensures var x := Steps16(s[CLASS0_BITS..]);
            && ReturnCode(x) == 0
            && Distance(Frames(t, Signs(s[..CLASS0_BITS]), x), acelp)
               == Distance(Signs(s[..CLASS0_BITS]), Type3(ToChannel(t, acelp))[..CLASS0_BITS])
  {
    var type1 := ToChannel(t, acelp);
    CodedLengths(STEPS);
    CodedPart(type1);
    ProtectedTerminated(type1);
    Steps16IsExact(s[CLASS0_BITS..]);
    SpeechSoftCorrects(s[CLASS0_BITS..], Protected(type1), m, most);
    RestoredSteps(t, acelp, Signs(s[..CLASS0_BITS]), Protected(type1));
  }

  /**
   * A burst whose coded values y are received without wrong signs, whatever their magnitudes: the
   * soft decoder restores class 1 and 2 with check and tail bits if and only if these magnitudes add
   * up to at most 2^15, and then every wrong sign in class 0 costs exactly one bit of the frames.
   */
  lemma CleanSoftBurst(t: ClassTables, acelp: seq<bool>, class0: seq<int>, y: seq<int>)
    requires t.Valid() && |acelp| == BURST_BITS && |class0| == CLASS0_BITS && |y| == CODED_BITS && AllInt8(y)
    requires RightSigns(y, SpeechCodeword(Protected(ToChannel(t, acelp))))
    ensures var x, sent := Steps16(y), Protected(ToChannel(t, acelp));
            && (x == sent <==> Magnitude(y, CODED_BITS) <= 0x8000)
            && (x == sent ==>
                  ReturnCode(x) == 0
                  && Distance(Frames(t, Signs(class0), x), acelp) == Distance(Signs(class0), ToChannel(t, acelp)[..CLASS0_BITS]))
  {
    var type1 := ToChannel(t, acelp);
    ProtectedTerminated(type1);
    CleanBurst(y, Protected(type1));
    if Steps16(y) == Protected(type1) {
      RestoredSteps(t, acelp, Signs(class0), Protected(type1));
    }
  }
}
