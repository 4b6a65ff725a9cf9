/** Bursts on the speech channel: up to 24 wrong bits in a row leave class 1 and class 2 exact. */
module SpeechBursts {
  import opened BitSeq
  import opened BranchMetrics
  import opened CodeDistance
  import opened ErrorCorrection
  import opened Scrambler
  import opened BlockInterleaver
  import Trellis
  import opened SpeechCode
  import opened SpeechMetrics
  import opened SpeechOrder
  import opened ScatteredErrors
  import opened BurstErrors
  import opened TchS
  import opened TchSDecoder

  /** A type-3 bit is wrong where the burst is wrong at the place that carries it. */
  lemma SpeechErrorPosition(t: ClassTables, acelp: seq<bool>, init: bv32, block: seq<bool>, j: nat)
    requires t.Valid() && |acelp| == BURST_BITS && |block| == BLOCK_BITS && j < BLOCK_BITS
    ensures Type3Received(block, init)[j] != Type3(ToChannel(t, acelp))[j]
            <==> block[Destination(j)] != SpeechTransmitted(t, acelp, init)[Destination(j)]
  {
    SourceOfDestination(j);
  }

  /** Wrong bits within 24 on the air are 17 or more apart among the type-3 bits. */
  lemma SpeechBurstScatters(t: ClassTables, acelp: seq<bool>, init: bv32, block: seq<bool>, from: nat)
    requires t.Valid() && |acelp| == BURST_BITS && |block| == BLOCK_BITS
    requires DifferWithin(block, SpeechTransmitted(t, acelp, init), from, 24)
    ensures Scattered(Xor(Type3Received(block, init), Type3(ToChannel(t, acelp))), 17)
  {
    var r := Xor(Type3Received(block, init), Type3(ToChannel(t, acelp)));
    forall i, j | 0 <= i < j < |r| && r[i] && r[j]
      ensures j - i >= 17
    {
      SpeechErrorPosition(t, acelp, init, block, i);
      SpeechErrorPosition(t, acelp, init, block, j);
      WindowSpreads(i, j, from);
    }
  }

  lemma WindowSpreads(i: nat, j: nat, from: nat)
    requires i < j < BLOCK_BITS && from <= Destination(i) < from + 24 && from <= Destination(j) < from + 24
    ensures j - i >= 17
  {
    SourceOfDestination(i);
    SourceOfDestination(j);
    if Destination(i) < Destination(j) {
      NeighboursComeFromAfar(Destination(i), Destination(j));
    } else if Destination(j) < Destination(i) {
      NeighboursComeFromAfar(Destination(j), Destination(i));
    }
  }

  /**
   * A burst of up to 24 wrong bits on the air, whatever the frames: return code 0, class 1 and
   * class 2 exact, and the frames wrong in exactly as many bits as class 0 was hit.
   */
  lemma SpeechSurvivesBurst(t: ClassTables, acelp: seq<bool>, init: bv32, block: seq<bool>, from: nat)
    requires t.Valid() && |acelp| == BURST_BITS && |block| == BLOCK_BITS
    requires DifferWithin(block, SpeechTransmitted(t, acelp, init), from, 24)
    ensures var s, x := Type3Received(block, init), HardSteps(block, init);
            var frames := Frames(t, s[..CLASS0_BITS], x);
            && x == Protected(ToChannel(t, acelp)) && TchS.ReturnCode(x) == 0
            && Distance(frames, acelp) == Distance(s[..CLASS0_BITS], ToChannel(t, acelp)[..CLASS0_BITS])
            && ToChannel(t, frames)[CLASS0_BITS..] == ToChannel(t, acelp)[CLASS0_BITS..]
  {
    var type1, s := ToChannel(t, acelp), Type3Received(block, init);
    BurstRestores(t, acelp, init, block, from);
    CodedPart(type1);
    RestoredSteps(t, acelp, s[..CLASS0_BITS], Protected(type1));
    OnlyClass0Wrong(t, acelp, s[..CLASS0_BITS], Protected(type1));
  }

  lemma BurstRestores(t: ClassTables, acelp: seq<bool>, init: bv32, block: seq<bool>, from: nat)
    requires t.Valid() && |acelp| == BURST_BITS && |block| == BLOCK_BITS
    requires DifferWithin(block, SpeechTransmitted(t, acelp, init), from, 24)
    ensures HardSteps(block, init) == Protected(ToChannel(t, acelp))
  {
    var type1 := ToChannel(t, acelp);
    SpeechBurstScatters(t, acelp, init, block, from);
    ProtectedTerminated(type1);
    ScatteredPart(type1, Type3Received(block, init), CLASS0_BITS);
  }

  /** Scattered errors on the whole type-3 block. */
  lemma ScatteredPart(type1: seq<bool>, s: seq<bool>, n: nat)
    requires |type1| == BURST_BITS && |s| == BLOCK_BITS && n == CLASS0_BITS && Scattered(Xor(s, Type3(type1)), 17)
    requires Trellis.Terminated(Protected(type1))
    ensures DecodedSteps(SoftBits(s[n..], 1)) == Protected(type1)
  {
    CodedPart(type1);
    TailScatters(Xor(s, Type3(type1)), n, 17);
    assert Xor(s, Type3(type1))[n..] == Xor(s[n..], SpeechCodeword(Protected(type1)));
    CodedLengths(STEPS);
    ScatteredSpeechErrorsAreCorrected(s[n..], Protected(type1));
  }

  lemma TailScatters(r: seq<bool>, n: nat, gap: nat)
    requires n <= |r| && Scattered(r, gap)
    ensures Scattered(r[n..], gap)
  {
  }
}
