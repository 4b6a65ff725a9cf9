/**
 * The SCH/F and SCH/HU chains: the stage loops, the encoder and decoders built from them, and the
 * end-to-end guarantees.
 */
module ChannelCodec {
  import opened Wrappers
  import opened BitSeq
  import opened Trellis
  import opened ConvCode
  import opened BranchMetrics
  import opened ErrorCorrection
  import opened Interleaver
  import opened Scrambler
  import opened Viterbi
  import Crc16

  // ---- Convolutional encoder ----

  /** parity5: exclusive or of the bits of a byte, by folding. */
  function ParityFold(x: bv8): bool {
    var a := x ^ (x >> 4);
    var b := a ^ (a >> 2);
    var c := b ^ (b >> 1);
    c & 1 == 1
  }

  /** The register byte holds the last five bits of x, newest in the low bit. */
  ghost predicate HoldsTaps(sr: bv8, x: seq<bool>) {
    && (sr & 1 != 0) == Tap(x, 0) && (sr & 2 != 0) == Tap(x, 1) && (sr & 4 != 0) == Tap(x, 2)
    && (sr & 8 != 0) == Tap(x, 3) && (sr & 16 != 0) == Tap(x, 4) && sr & 0xE0 == 0
  }

  /** sr = ((sr << 1) | bit) & 0x1F. */
  function ShiftIn(sr: bv8, bit: bool): bv8 {
    ((sr << 1) | (if bit then 1 else 0)) & 0x1F
  }

  lemma ShiftInMasks(sr: bv8, bit: bool)
    ensures var n := ShiftIn(sr, bit);
            && (n & 1 != 0) == bit && (n & 2 != 0) == (sr & 1 != 0) && (n & 4 != 0) == (sr & 2 != 0)
            && (n & 8 != 0) == (sr & 4 != 0) && (n & 16 != 0) == (sr & 8 != 0) && n & 0xE0 == 0
  {
  }

  lemma ShiftInTaps(sr: bv8, x: seq<bool>, bit: bool)
    requires HoldsTaps(sr, x)
    ensures HoldsTaps(ShiftIn(sr, bit), x + [bit])
  {
    ShiftInMasks(sr, bit);
    AppendTaps(x, bit);
  }

  lemma AppendTaps(x: seq<bool>, bit: bool)
    ensures Tap(x + [bit], 0) == bit && Tap(x + [bit], 1) == Tap(x, 0) && Tap(x + [bit], 2) == Tap(x, 1)
    ensures Tap(x + [bit], 3) == Tap(x, 2) && Tap(x + [bit], 4) == Tap(x, 3)
  {
  }

  lemma FoldMasks(sr: bv8)
    requires sr & 0xE0 == 0
    ensures ParityFold(sr & 0x13) == (((sr & 1 != 0) != (sr & 2 != 0)) != (sr & 16 != 0))
    ensures ParityFold(sr & 0x1D) == ((((sr & 1 != 0) != (sr & 4 != 0)) != (sr & 8 != 0)) != (sr & 16 != 0))
    ensures ParityFold(sr & 0x17) == ((((sr & 1 != 0) != (sr & 2 != 0)) != (sr & 4 != 0)) != (sr & 16 != 0))
    ensures ParityFold(sr & 0x1B) == ((((sr & 1 != 0) != (sr & 2 != 0)) != (sr & 8 != 0)) != (sr & 16 != 0))
  {
  }

  lemma FoldIsOutputs(sr: bv8, x: seq<bool>)
    requires HoldsTaps(sr, x)
    ensures [ParityFold(sr & 0x13), ParityFold(sr & 0x1D), ParityFold(sr & 0x17), ParityFold(sr & 0x1B)]
            == Outputs(Register(x))
  {
    FoldMasks(sr);
    OutputsAreTaps(x);
  }

  /** The four mother bits of a register byte. */
  method MotherBits(sr: bv8, ghost x: seq<bool>) returns (o: seq<bool>)
    requires HoldsTaps(sr, x)
    ensures o == Outputs(Register(x))
  {
    FoldIsOutputs(sr, x);
    o := [ParityFold(sr & 0x13), ParityFold(sr & 0x1D), ParityFold(sr & 0x17), ParityFold(sr & 0x1B)];
  }

  /** Stores the values at out[at], out[at + 1], ... */
  method Put<T>(out: array<T>, at: nat, values: seq<T>)
    requires at + |values| <= out.Length
    modifies out
    ensures out[..at + |values|] == old(out[..at]) + values
    ensures out[at + |values|..] == old(out[at + |values|..])
  {
    for i := 0 to |values|
      invariant out[..at + i] == old(out[..at]) + values[..i]
      invariant out[at + i..] == old(out[at + i..])
    {
      out[at + i] := values[i];
      assert out[..at + i + 1] == out[..at + i] + [values[i]];
    }
  }

  method ConvR14(bits: seq<bool>, out: array<bool>) returns (written: nat)
    requires out.Length >= 4 * |bits|
    modifies out
    ensures written == 4 * |bits|
    ensures out[..written] == Encode(bits) && out[written..] == old(out[written..])
  {
    var sr: bv8 := 0;
    written := 0;
    for i := 0 to |bits|
      invariant written == 4 * i && HoldsTaps(sr, bits[..i])
      invariant out[..written] == Encode(bits[..i])
      invariant out[written..] == old(out[written..])
    {
      sr := ShiftInBit(sr, bits, i);
      var o := MotherBits(sr, bits[..i + 1]);
      EncodeOneMore(bits, i);
      Put(out, written, o);
      written := written + 4;
    }
    assert bits[..|bits|] == bits;
  }

  method ShiftInBit(sr: bv8, bits: seq<bool>, i: nat) returns (next: bv8)
    requires i < |bits| && HoldsTaps(sr, bits[..i])
    ensures HoldsTaps(next, bits[..i + 1])
  {
    next := ShiftIn(sr, bits[i]);
    ShiftInTaps(sr, bits[..i], bits[i]);
    assert bits[..i] + [bits[i]] == bits[..i + 1];
  }

  lemma EncodeOneMore(bits: seq<bool>, i: nat)
    requires i < |bits|
    ensures Encode(bits[..i + 1]) == Encode(bits[..i]) + Outputs(Register(bits[..i + 1]))
  {
    EncodeExtend(bits[..i], bits[i]);
    assert bits[..i] + [bits[i]] == bits[..i + 1];
  }

  /** None when the length is not a multiple of 8, otherwise the number of bits written. */
  method PunctureR23(mother: seq<bool>, out: array<bool>) returns (written: Option<nat>)
    requires out.Length >= 3 * (|mother| / 8)
    modifies out
    ensures written.Some? <==> |mother| % 8 == 0
    ensures written.None? ==> out[..] == old(out[..])
    ensures written.Some? ==>
              && written.value == 3 * (|mother| / 8)
              && out[..written.value] == Puncture(mother, |mother| / 8)
              && out[written.value..] == old(out[written.value..])
  {
    if |mother| % 8 != 0 {
      return None;
    }
    var idx, p := 0, 0;
    while 8 * p < |mother|
      invariant 8 * p <= |mother| && idx == 3 * p
      invariant out[..idx] == Puncture(mother, p)
      invariant out[idx..] == old(out[idx..])
    {
      var i := 8 * p;
      Put(out, idx, [mother[i], mother[i + 1], mother[i + 4]]);
      idx, p := idx + 3, p + 1;
    }
    return Some(idx);
  }

  /** Puts three received values per pair of input bits at mother positions 0, 1 and 4 of eight. */
  method DepunctureR23<T>(input: seq<T>, erased: T, out: array<T>)
    requires out.Length >= 8 * (|input| / 3)
    modifies out
    ensures out[..8 * (|input| / 3)] == Depuncture(input, |input| / 3, erased)
    ensures out[8 * (|input| / 3)..] == old(out[8 * (|input| / 3)..])
  {
    var pairs := |input| / 3;
    for p := 0 to pairs
      invariant out[..8 * p] == Depuncture(input, p, erased)
      invariant out[8 * p..] == old(out[8 * p..])
    {
      var i := 3 * p;
      Put(out, 8 * p, [input[i], input[i + 1], erased, erased, input[i + 2], erased, erased, erased]);
    }
  }

  // ---- The chain as functions ----

  /** Type-3 bits: information bits, check bits and four tail bits. */
  function Message(info: seq<bool>): (x: seq<bool>)
    ensures |x| == |info| + 20
  {
    Crc16.WithFcs(info) + Zeros(4)
  }

  /** The block that is sent for info: coded in p groups, interleaved with factor a and scrambled. */
  ghost function Transmitted(info: seq<bool>, p: nat, a: nat, init: bv32): (block: seq<bool>)
    requires |info| + 20 == 2 * p && Gcd(a, 3 * p) == 1
    ensures |block| == 3 * p
  {
    Scrambled(Interleaved(Codeword(Message(info), p), a), init)
  }

  /** All bits that the decoder makes of a block, tail included. */
  function Received(block: seq<bool>, p: nat, a: nat, init: bv32): (x: seq<bool>)
    requires |block| == 3 * p
    ensures |x| == 2 * p
  {
    HardDecoded(Deinterleaved(Scrambled(block, init), a), p)
  }

  function SoftReceived(block: seq<int>, p: nat, a: nat, init: bv32): (x: seq<bool>)
    requires |block| == 3 * p
    ensures |x| == 2 * p
  {
    SoftDecoded(Deinterleaved(SoftScrambled(block, init), a), p)
  }

  /** The decoder's return code 0: the check bits match. */
  predicate CheckPasses(x: seq<bool>)
    requires |x| >= 20
  {
    Crc16.Accepts(x[..|x| - 4])
  }

  // ---- End-to-end guarantees ----

  lemma MessageTerminated(info: seq<bool>)
    ensures Terminated(Message(info))
  {
    TerminatedTaps(Message(info));
  }

  lemma MessagePasses(info: seq<bool>)
    ensures CheckPasses(Message(info)) && Message(info)[..|info|] == info
  {
    assert Message(info)[..|info| + 16] == Crc16.WithFcs(info);
    Crc16.WithFcsAccepted(info);
  }

  /** Undoing scrambling and interleaving of a block with errors leaves no more errors on the codeword. */
  lemma ErrorsOnCodeword(info: seq<bool>, p: nat, a: nat, init: bv32, block: seq<bool>)
    requires |info| + 20 == 2 * p && Gcd(a, 3 * p) == 1 && |block| == 3 * p
    ensures Distance(Deinterleaved(Scrambled(block, init), a), Codeword(Message(info), p))
            <= Distance(block, Transmitted(info, p, a, init))
  {
    var c, sent := Codeword(Message(info), p), Transmitted(info, p, a, init);
    ScrambleTwice(Interleaved(c, a), init);
    DeinterleaveInterleaved(c, a);
    DeinterleavedDistance(Scrambled(block, init), Scrambled(sent, init), a);
    ScrambledDistance(block, sent, init);
  }

  /** Every message survives every single flipped bit of its block. */
  lemma OneFlipIsCorrected(info: seq<bool>, p: nat, a: nat, init: bv32, block: seq<bool>)
    requires |info| + 20 == 2 * p && Gcd(a, 3 * p) == 1 && |block| == 3 * p
    requires Distance(block, Transmitted(info, p, a, init)) <= 1
    ensures Received(block, p, a, init) == Message(info)
  {
    ErrorsOnCodeword(info, p, a, init, block);
    MessageTerminated(info);
    CorrectsOneError(Deinterleaved(Scrambled(block, init), a), p, Message(info));
  }

  lemma TerminatedTail(x: seq<bool>)
    requires |x| >= 4 && Terminated(x)
    ensures forall i :: |x| - 4 <= i < |x| ==> !x[i]
  {
    TerminatedTaps(x);
    assert !x[|x| - 1] && !x[|x| - 2] && !x[|x| - 3] && !x[|x| - 4];
  }

  /** A local difference to a sent message either vanishes or is caught by the check bits. */
  lemma LocalDifferenceIsCaught(info: seq<bool>, x: seq<bool>)
    requires |x| == |info| + 20 && Terminated(x) && DifferLocally(Message(info), x)
    ensures CheckPasses(x) <==> x == Message(info)
  {
    var sent, n := Message(info), |info| + 16;
    MessagePasses(info);
    if x != sent {
      MessageTerminated(info);
      TerminatedTail(x);
      TerminatedTail(sent);
      var word, e := sent[..n], Xor(sent[..n], x[..n]);
      assert x[..n] == Xor(word, e);
      assert exists i :: 0 <= i < n && e[i] by {
        var i :| 0 <= i < |x| && x[i] != sent[i];
        assert e[i];
      }
      assert Crc16.IsBurst(e);
      Crc16.RejectsBursts(word, e);
    }
  }

  /**
   * Up to three flipped bits are never accepted as another message: the check passes if and only
   * if the decoder has restored the sent one.
   */
  lemma ThreeFlipsAreNeverSilent(info: seq<bool>, p: nat, a: nat, init: bv32, block: seq<bool>)
    requires |info| + 20 == 2 * p && Gcd(a, 3 * p) == 1 && |block| == 3 * p
    requires Distance(block, Transmitted(info, p, a, init)) <= 3
    ensures CheckPasses(Received(block, p, a, init)) <==> Received(block, p, a, init) == Message(info)
  {
    ErrorsOnCodeword(info, p, a, init, block);
    MessageTerminated(info);
    ThreeErrorsStayLocal(Deinterleaved(Scrambled(block, init), a), p, Message(info));
    LocalDifferenceIsCaught(info, Received(block, p, a, init));
  }

  /** On full-confidence values the soft chain returns exactly what the hard chain returns. */
  lemma SoftChainRefinesHard(block: seq<bool>, p: nat, a: nat, init: bv32, c: int)
    requires |block| == 3 * p && c > 0
    ensures SoftReceived(SoftBits(block, c), p, a, init) == Received(block, p, a, init)
  {
    SoftScrambledBits(block, init, c);
    var y := Scrambled(block, init);
    assert Deinterleaved(SoftBits(y, c), a) == SoftBits(Deinterleaved(y, a), c);
    SoftDecodedIsHard(Deinterleaved(y, a), p, c);
  }
}
