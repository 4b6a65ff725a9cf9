/** The SCH/F encoder and the SCH/F and SCH/HU decoders, hard and soft, as the source composes them. */
module ControlChannels {
  import opened Wrappers
  import opened BitSeq
  import opened Trellis
  import opened ConvCode
  import opened BranchMetrics
  import opened ErrorCorrection
  import opened Interleaver
  import opened Scrambler
  import opened Viterbi
  import opened ChannelCodec
  import Crc16

  const SCHF_INFO_BITS := 268
  const SCHF_GROUPS := 144
  const SCHF_CODED_BITS := 432
  const SCHF_A := 103

  const SCHHU_INFO_BITS := 92
  const SCHHU_GROUPS := 56
  const SCHHU_CODED_BITS := 168
  const SCHHU_A := 13

  lemma InterleaversAreCoprime()
    ensures Gcd(SCHF_A, SCHF_CODED_BITS) == 1
    ensures Gcd(SCHHU_A, SCHHU_CODED_BITS) == 1
  {
    assert Gcd(103, 432) == Gcd(432, 103) == Gcd(103, 20) == Gcd(20, 3) == Gcd(3, 2) == Gcd(2, 1) == Gcd(1, 0);
    assert Gcd(13, 168) == Gcd(168, 13) == Gcd(13, 12) == Gcd(12, 1) == Gcd(1, 0);
  }

  /** Success is 0, a failed check is -1. */
  function ReturnCode(x: seq<bool>): (rc: int)
    requires |x| >= 20
    ensures rc == 0 || rc == -1
  {
    if CheckPasses(x) then 0 else -1
  }

  // ---- Encoder ----

  /** Check bits, tail, mother code and puncturing; None when a length does not come out. */
  method CodeBlock(info: seq<bool>, p: nat) returns (type4: array<bool>, ok: bool)
    requires |info| + 20 == 2 * p
    ensures fresh(type4) && ok && type4[..] == Codeword(Message(info), p)
  {
    var type3 := new bool[2 * p];
    Crc16.AppendCrc16(info, type3);
    AppendTail(info, type3);
    var mother := new bool[8 * p];
    var m := ConvR14(type3[..], mother);
    assert mother[..m] == Encode(Message(info));
    Groups(8, p);
    type4 := new bool[3 * p];
    var c := PunctureR23(mother[..m], type4);
    ok := m == 8 * p && c == Some(3 * p);
    assert type4[..3 * p] == type4[..];
  }

  lemma Groups(k: nat, p: nat)
    requires k > 0
    ensures (k * p) % k == 0 && (k * p) / k == p
  {
    DivMod(k * p, k);
    MultipleBelow((k * p) % k, p - (k * p) / k, k);
    if p != (k * p) / k {
      NonzeroMultiple(p - (k * p) / k, k);
    }
  }

  method SchfEncode(info: seq<bool>, colourCode: bv8, slotNum: bv8, mcc: bv16, mnc: bv16, out: array<bool>)
    returns (rc: int)
    requires |info| == SCHF_INFO_BITS && out.Length == SCHF_CODED_BITS
    modifies out
    ensures rc == 0
    ensures Gcd(SCHF_A, SCHF_CODED_BITS) == 1
            && out[..] == Transmitted(info, SCHF_GROUPS, SCHF_A, CellInit(mcc, mnc, colourCode))
  {
    InterleaversAreCoprime();
    var type4, ok := CodeBlock(info, SCHF_GROUPS);
    if !ok {
      return -1;
    }
    var type4i := new bool[SCHF_CODED_BITS];
    InterleavePerm(type4[..], SCHF_A, type4i);
    Scramble(type4i[..], CellInit(mcc, mnc, colourCode), out);
    return 0;
  }

  method AppendTail(info: seq<bool>, type3: array<bool>)
    requires type3.Length == |info| + 20 && type3[..|info| + 16] == Crc16.WithFcs(info)
    modifies type3
    ensures type3[..] == Message(info)
  {
    var n := |info| + 16;
    Put(type3, n, [false, false, false, false]);
    assert type3[..] == type3[..n + 4];
  }

  // ---- Hard decoders ----

  method Unscramble(block: seq<bool>, a: nat, init: bv32) returns (type4d: array<bool>)
    ensures fresh(type4d) && type4d[..] == Deinterleaved(Scrambled(block, init), a)
  {
    var type4 := new bool[|block|];
    Scramble(block, init, type4);
    type4d := new bool[|block|];
    DeinterleavePerm(type4[..], a, type4d);
  }

  method Mother<T(0)>(type4d: seq<T>, p: nat, erased: T) returns (mother: array<T>)
    requires |type4d| == 3 * p
    ensures fresh(mother) && mother[..] == Depuncture(type4d, p, erased)
  {
    Groups(3, p);
    mother := new T[8 * p];
    DepunctureR23(type4d, erased, mother);
    assert mother[..8 * p] == mother[..];
  }

  /** Descrambles, de-interleaves, depunctures and Viterbi-decodes a block of p groups. */
  method DecodeBlock(block: seq<bool>, p: nat, a: nat, init: bv32) returns (decoded: array<bool>)
    requires |block| == 3 * p && 8 * p < INF_M
    ensures fresh(decoded) && decoded[..] == Received(block, p, a, init)
  {
    var type4d := Unscramble(block, a, init);
    var known := ToSymbols(type4d[..]);
    var mother := Mother(known, p, Erasure);
    decoded := new bool[2 * p];
    ViterbiR14(mother[..], 2 * p, decoded);
    assert decoded[..2 * p] == decoded[..];
  }

  method ToSymbols(bits: seq<bool>) returns (s: seq<Symbol>)
    ensures s == Symbols(bits)
  {
    s := seq(|bits|, i requires 0 <= i < |bits| => Known(bits[i]));
  }

  /** Copies the information bits out and reports whether the check bits match. */
  method Deliver(decoded: seq<bool>, infoLen: nat, infoOut: array<bool>) returns (rc: int)
    requires |decoded| == infoLen + 20 && infoOut.Length == infoLen
    modifies infoOut
    ensures infoOut[..] == decoded[..infoLen] && rc == ReturnCode(decoded)
  {
    Put(infoOut, 0, decoded[..infoLen]);
    assert infoOut[..] == infoOut[..infoLen];
    var ok := Crc16.CheckCrc16(decoded, infoLen);
    rc := if ok then 0 else -1;
  }

  method SchfDecode(type5: seq<bool>, colourCode: bv8, slotNum: bv8, mcc: bv16, mnc: bv16, infoOut: array<bool>)
    returns (rc: int)
    requires |type5| == SCHF_CODED_BITS && infoOut.Length == SCHF_INFO_BITS
    modifies infoOut
    ensures var x := Received(type5, SCHF_GROUPS, SCHF_A, CellInit(mcc, mnc, colourCode));
            infoOut[..] == x[..SCHF_INFO_BITS] && rc == ReturnCode(x)
  {
    var decoded := DecodeBlock(type5, SCHF_GROUPS, SCHF_A, CellInit(mcc, mnc, colourCode));
    rc := Deliver(decoded[..], SCHF_INFO_BITS, infoOut);
  }

  method SchhuDecode(type5: seq<bool>, colourCode: bv8, slotNum: bv8, mcc: bv16, mnc: bv16, infoOut: array<bool>)
    returns (rc: int)
    requires |type5| == SCHHU_CODED_BITS && infoOut.Length == SCHHU_INFO_BITS
    modifies infoOut
    ensures var x := Received(type5, SCHHU_GROUPS, SCHHU_A, CellInit(mcc, mnc, colourCode));
            infoOut[..] == x[..SCHHU_INFO_BITS] && rc == ReturnCode(x)
  {
    var decoded := DecodeBlock(type5, SCHHU_GROUPS, SCHHU_A, CellInit(mcc, mnc, colourCode));
    rc := Deliver(decoded[..], SCHHU_INFO_BITS, infoOut);
  }

  // ---- Soft decoders ----

  /** All magnitudes are at most bound. */
  ghost predicate Within(soft: seq<int>, bound: nat) {
    forall i :: 0 <= i < |soft| ==> Abs(soft[i]) <= bound
  }

  lemma {:induction false} DepuncturedMagnitude(y: seq<int>, p: nat, bound: nat)
    requires 3 * p <= |y| && Within(y, bound)
    ensures Magnitude(Depuncture(y, p, 0), 8 * p) <= 3 * p * bound
  {
    if p > 0 {
      DepuncturedMagnitude(y, p - 1, bound);
      DepuncturedGroup(y, p - 1, p);
      TripleBound(p, bound);
    }
  }

  lemma TripleBound(p: nat, bound: nat)
    requires p > 0
    ensures 3 * p * bound == 3 * (p - 1) * bound + 3 * bound
  {
  }

  lemma DepuncturedGroup(y: seq<int>, q: nat, p: nat)
    requires p == q + 1 && 3 * p <= |y|
    ensures Magnitude(Depuncture(y, p, 0), 8 * p)
            == Magnitude(Depuncture(y, q, 0), 8 * q) + Abs(y[3 * q]) + Abs(y[3 * q + 1]) + Abs(y[3 * q + 2])
  {
    var m, n := Depuncture(y, q, 0), 3 * q;
    var g := [y[n], y[n + 1], 0, 0, y[n + 2], 0, 0, 0];
    MagnitudePrefix(m, g, 8 * q);
    MagnitudeOfEight(m + g, 8 * q);
  }

  lemma {:induction false} MagnitudePrefix(m: seq<int>, q: seq<int>, n: nat)
    requires n <= |m|
    ensures Magnitude(m + q, n) == Magnitude(m, n)
  {
    if n > 0 {
      MagnitudePrefix(m, q, n - 1);
    }
  }

  lemma MagnitudeOfEight(s: seq<int>, n: nat)
    requires n + 8 <= |s|
    ensures Magnitude(s, n + 8) == Magnitude(s, n) + Abs(s[n]) + Abs(s[n + 1]) + Abs(s[n + 2]) + Abs(s[n + 3])
                                   + Abs(s[n + 4]) + Abs(s[n + 5]) + Abs(s[n + 6]) + Abs(s[n + 7])
  {
    assert Magnitude(s, n + 2) == Magnitude(s, n) + Abs(s[n]) + Abs(s[n + 1]);
    assert Magnitude(s, n + 4) == Magnitude(s, n + 2) + Abs(s[n + 2]) + Abs(s[n + 3]);
    assert Magnitude(s, n + 6) == Magnitude(s, n + 4) + Abs(s[n + 4]) + Abs(s[n + 5]);
  }

  method UnscrambleSoft(block: seq<int>, a: nat, init: bv32) returns (type4d: array<int>)
    ensures fresh(type4d) && type4d[..] == Deinterleaved(SoftScrambled(block, init), a)
  {
    var type4 := new int[|block|];
    ScrambleSoft(block, init, type4);
    type4d := new int[|block|];
    DeinterleavePerm(type4[..], a, type4d);
  }

  method DecodeSoftBlock(block: seq<int>, p: nat, a: nat, init: bv32, ghost bound: nat) returns (decoded: array<bool>)
    requires |block| == 3 * p && Within(block, bound) && 3 * p * bound < INF_M
    ensures fresh(decoded) && decoded[..] == SoftReceived(block, p, a, init)
  {
    var type4d := UnscrambleSoft(block, a, init);
    var mother := Mother(type4d[..], p, 0);
    DepuncturedMagnitude(type4d[..], p, bound);
    decoded := new bool[2 * p];
    ViterbiR14Soft(mother[..], 2 * p, decoded);
    assert decoded[..2 * p] == decoded[..];
  }

  method SchfDecodeSoft(soft: seq<int>, colourCode: bv8, slotNum: bv8, mcc: bv16, mnc: bv16, infoOut: array<bool>,
                        ghost bound: nat)
    returns (rc: int)
    requires |soft| == SCHF_CODED_BITS && infoOut.Length == SCHF_INFO_BITS
    requires Within(soft, bound) && SCHF_CODED_BITS * bound < INF_M
    modifies infoOut
    ensures var x := SoftReceived(soft, SCHF_GROUPS, SCHF_A, CellInit(mcc, mnc, colourCode));
            infoOut[..] == x[..SCHF_INFO_BITS] && rc == ReturnCode(x)
    ensures forall block: seq<bool>, c: nat :: c > 0 && |block| == SCHF_CODED_BITS && soft == SoftBits(block, c) ==>
              var x := Received(block, SCHF_GROUPS, SCHF_A, CellInit(mcc, mnc, colourCode));
              infoOut[..] == x[..SCHF_INFO_BITS] && rc == ReturnCode(x)
  {
    forall block: seq<bool>, c: nat | c > 0 && |block| == SCHF_CODED_BITS && soft == SoftBits(block, c)
      ensures SoftReceived(soft, SCHF_GROUPS, SCHF_A, CellInit(mcc, mnc, colourCode))
              == Received(block, SCHF_GROUPS, SCHF_A, CellInit(mcc, mnc, colourCode))
    {
      SoftChainRefinesHard(block, SCHF_GROUPS, SCHF_A, CellInit(mcc, mnc, colourCode), c);
    }
    var decoded := DecodeSoftBlock(soft, SCHF_GROUPS, SCHF_A, CellInit(mcc, mnc, colourCode), bound);
    rc := Deliver(decoded[..], SCHF_INFO_BITS, infoOut);
  }

  method SchhuDecodeSoft(soft: seq<int>, colourCode: bv8, slotNum: bv8, mcc: bv16, mnc: bv16, infoOut: array<bool>,
                         ghost bound: nat)
    returns (rc: int)
    requires |soft| == SCHHU_CODED_BITS && infoOut.Length == SCHHU_INFO_BITS
    requires Within(soft, bound) && SCHHU_CODED_BITS * bound < INF_M
    modifies infoOut
    ensures var x := SoftReceived(soft, SCHHU_GROUPS, SCHHU_A, CellInit(mcc, mnc, colourCode));
            infoOut[..] == x[..SCHHU_INFO_BITS] && rc == ReturnCode(x)
    ensures forall block: seq<bool>, c: nat :: c > 0 && |block| == SCHHU_CODED_BITS && soft == SoftBits(block, c) ==>
              var x := Received(block, SCHHU_GROUPS, SCHHU_A, CellInit(mcc, mnc, colourCode));
              infoOut[..] == x[..SCHHU_INFO_BITS] && rc == ReturnCode(x)
  {
    forall block: seq<bool>, c: nat | c > 0 && |block| == SCHHU_CODED_BITS && soft == SoftBits(block, c)
      ensures SoftReceived(soft, SCHHU_GROUPS, SCHHU_A, CellInit(mcc, mnc, colourCode))
              == Received(block, SCHHU_GROUPS, SCHHU_A, CellInit(mcc, mnc, colourCode))
    {
      SoftChainRefinesHard(block, SCHHU_GROUPS, SCHHU_A, CellInit(mcc, mnc, colourCode), c);
    }
    var decoded := DecodeSoftBlock(soft, SCHHU_GROUPS, SCHHU_A, CellInit(mcc, mnc, colourCode), bound);
    rc := Deliver(decoded[..], SCHHU_INFO_BITS, infoOut);
  }

  // ---- Guarantees for the two channels ----

  /** SCH/F: with at most one flipped bit the decoder returns 0 and the exact message. */
  lemma SchfSurvivesOneFlip(info: seq<bool>, init: bv32, type5: seq<bool>)
    requires |info| == SCHF_INFO_BITS && |type5| == SCHF_CODED_BITS
    ensures Gcd(SCHF_A, SCHF_CODED_BITS) == 1
    ensures Distance(type5, Transmitted(info, SCHF_GROUPS, SCHF_A, init)) <= 1 ==>
              var x := Received(type5, SCHF_GROUPS, SCHF_A, init);
              ReturnCode(x) == 0 && x[..SCHF_INFO_BITS] == info
  {
    InterleaversAreCoprime();
    if Distance(type5, Transmitted(info, SCHF_GROUPS, SCHF_A, init)) <= 1 {
      OneFlipIsCorrected(info, SCHF_GROUPS, SCHF_A, init, type5);
      MessagePasses(info);
    }
  }

  /** SCH/HU: with at most one flipped bit the decoder returns 0 and the exact message. */
  lemma SchhuSurvivesOneFlip(info: seq<bool>, init: bv32, type5: seq<bool>)
    requires |info| == SCHHU_INFO_BITS && |type5| == SCHHU_CODED_BITS
    ensures Gcd(SCHHU_A, SCHHU_CODED_BITS) == 1
    ensures Distance(type5, Transmitted(info, SCHHU_GROUPS, SCHHU_A, init)) <= 1 ==>
              var x := Received(type5, SCHHU_GROUPS, SCHHU_A, init);
              ReturnCode(x) == 0 && x[..SCHHU_INFO_BITS] == info
  {
    InterleaversAreCoprime();
    if Distance(type5, Transmitted(info, SCHHU_GROUPS, SCHHU_A, init)) <= 1 {
      OneFlipIsCorrected(info, SCHHU_GROUPS, SCHHU_A, init, type5);
      MessagePasses(info);
    }
  }

  /** SCH/F: with at most three flipped bits return code 0 always means the exact message. */
  lemma SchfNeverSilentlyWrong(info: seq<bool>, init: bv32, type5: seq<bool>)
    requires |info| == SCHF_INFO_BITS && |type5| == SCHF_CODED_BITS
    ensures Gcd(SCHF_A, SCHF_CODED_BITS) == 1
    ensures Distance(type5, Transmitted(info, SCHF_GROUPS, SCHF_A, init)) <= 3 ==>
              var x := Received(type5, SCHF_GROUPS, SCHF_A, init);
              ReturnCode(x) == 0 ==> x[..SCHF_INFO_BITS] == info
  {
    InterleaversAreCoprime();
    if Distance(type5, Transmitted(info, SCHF_GROUPS, SCHF_A, init)) <= 3 {
      ThreeFlipsAreNeverSilent(info, SCHF_GROUPS, SCHF_A, init, type5);
      MessagePasses(info);
    }
  }
}
