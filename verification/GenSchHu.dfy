/** The SCH/HU test-vector encoder, proved to send what the SCH/HU decoder expects. */
module GenSchHu {
  import opened BitSeq
  import opened Trellis
  import opened ConvCode
  import opened BranchMetrics
  import opened Interleaver
  import opened Scrambler
  import opened ChannelCodec
  import opened ControlChannels
  import Crc16
  import DecodeDl

  /** CRC-16 without the final complement. */
  method Crc16Msb(bits: seq<bool>) returns (crc: bv16)
    ensures Crc16.RegisterOf(crc) == Crc16.Run(Crc16.Ones(16), bits)
  {
    crc := 0xFFFF;
    Crc16.AllOnes();
    for i := 0 to |bits|
      invariant Crc16.RegisterOf(crc) == Crc16.Run(Crc16.Ones(16), bits[..i])
    {
      Crc16.RunOneMore(Crc16.Ones(16), bits, i);
      crc := Crc16.ShiftInBit(crc, bits[i]);
    }
    assert bits[..|bits|] == bits;
  }

  /** Appends the complement of the remainder, most significant bit first. */
  method AppendFcs(info: seq<bool>) returns (bits: seq<bool>)
    ensures bits == Crc16.WithFcs(info)
  {
    var rem := Crc16Msb(info);
    Crc16.ComplementWord(rem);
    var fcs := rem ^ 0xFFFF;
    bits := info;
    var i := 16;
    while i > 0
      invariant 0 <= i <= 16
      invariant bits == info + Crc16.RegisterOf(fcs)[..16 - i]
    {
      i := i - 1;
      var b := Crc16.BitOf(fcs, 15 - i);
      bits := bits + [b];
    }
    assert Crc16.RegisterOf(fcs)[..16] == Crc16.Fcs(info);
  }

  /** State of four bits, four mother bits per input bit. */
  method ConvEncodeR14(bits: seq<bool>) returns (out: seq<bool>)
    ensures out == Encode(bits)
  {
    var state := 0;
    out := [];
    for i := 0 to |bits|
      invariant state == StateAfter(bits[..i]) && out == Encode(bits[..i])
    {
      var sr := (2 * state + BitValue(bits[i])) % 32;
      StateStep(bits, i);
      EncodeOneMore(bits, i);
      out := out + Outputs(sr);
      state := sr % 16;
    }
    assert bits[..|bits|] == bits;
  }

  lemma StateStep(bits: seq<bool>, i: nat)
    requires i < |bits|
    ensures (2 * StateAfter(bits[..i]) + BitValue(bits[i])) % 32 == Register(bits[..i + 1])
  {
    RegisterExtend(bits[..i], bits[i]);
    assert bits[..i] + [bits[i]] == bits[..i + 1];
  }

  /** Keeps the mother bits at positions 0, 1 and 4 modulo 8. */
  function Kept(mother: seq<bool>, n: nat): seq<bool>
    requires n <= |mother|
  {
    if n == 0 then []
    else Kept(mother, n - 1) + if (n - 1) % 8 in {0, 1, 4} then [mother[n - 1]] else []
  }

  /** Filtering by position is the period-8 puncturing. */
  lemma {:induction false} KeptIsPuncture(mother: seq<bool>, p: nat)
    requires 8 * p <= |mother|
    ensures Kept(mother, 8 * p) == Puncture(mother, p)
  {
    if p > 0 {
      KeptIsPuncture(mother, p - 1);
      KeptGroup(mother, p - 1);
    }
  }

  lemma KeptGroup(mother: seq<bool>, q: nat)
    requires 8 * q + 8 <= |mother|
    ensures Kept(mother, 8 * q + 8)
            == Kept(mother, 8 * q) + [mother[8 * q], mother[8 * q + 1], mother[8 * q + 4]]
  {
    var n := 8 * q;
    GroupPhase(q);
    assert Kept(mother, n + 2) == Kept(mother, n) + [mother[n]] + [mother[n + 1]];
    assert Kept(mother, n + 4) == Kept(mother, n + 2);
    assert Kept(mother, n + 5) == Kept(mother, n + 4) + [mother[n + 4]];
    assert Kept(mother, n + 7) == Kept(mother, n + 5);
  }

  lemma GroupPhase(q: nat)
    ensures (8 * q) % 8 == 0 && (8 * q + 1) % 8 == 1 && (8 * q + 2) % 8 == 2 && (8 * q + 3) % 8 == 3
    ensures (8 * q + 4) % 8 == 4 && (8 * q + 5) % 8 == 5 && (8 * q + 6) % 8 == 6 && (8 * q + 7) % 8 == 7
  {
  }

  /** out[(a * i) mod K] = bits[i - 1]. */
  method InterleaveA13(bits: seq<bool>) returns (out: seq<bool>)
    requires |bits| == SCHHU_CODED_BITS
    ensures Gcd(SCHHU_A, |bits|) == 1 && out == Interleaved(bits, SCHHU_A)
  {
    InterleaversAreCoprime();
    var buffer := new bool[SCHHU_CODED_BITS];
    InterleavePerm(bits, SCHHU_A, buffer);
    out := buffer[..];
  }

  method ScrambleBits(bits: seq<bool>, init: bv32) returns (out: seq<bool>)
    ensures out == Scrambled(bits, init)
  {
    var key := DecodeDl.ScramblerSeq(init, |bits|);
    out := seq(|bits|, i requires 0 <= i < |bits| => bits[i] != key[i]);
  }

  method EncodeSchHu(info: seq<bool>, init: bv32) returns (type5: seq<bool>)
    requires |info| == SCHHU_INFO_BITS
    ensures Gcd(SCHHU_A, SCHHU_CODED_BITS) == 1
    ensures type5 == Transmitted(info, SCHHU_GROUPS, SCHHU_A, init)
  {
    InterleaversAreCoprime();
    var crcBits := AppendFcs(info);
    var mother := ConvEncodeR14(crcBits + Zeros(4));
    var type4 := Kept(mother, |mother|);
    KeptIsPuncture(mother, SCHHU_GROUPS);
    var interleaved := InterleaveA13(type4);
    type5 := ScrambleBits(interleaved, init);
  }
}
