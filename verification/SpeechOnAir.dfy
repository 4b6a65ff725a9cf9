/** Bit for bit, what a transmitted burst of speech carries at each position. */
module SpeechOnAir {
  import opened BitSeq
  import opened Trellis
  import opened ConvCode
  import opened CodeDistance
  import opened Scrambler
  import opened BlockInterleaver
  import opened SpeechCode
  import opened SpeechMetrics
  import opened SpeechOrder
  import opened ControlOnAir
  import opened TchS
  import SpeechCrc

  /** The m-th coded bit of step i of the speech code: 1+D+D^2+D^3+D^4, 1+D+D^3+D^4 or 1+D^2+D^4. */
  lemma SpeechBitAt(x: seq<bool>, i: nat, m: nat)
    requires i < |x| && m < KeepCount(i)
    ensures Offset(i) + m < Offset(|x|)
    ensures SpeechCodeword(x)[Offset(i) + m]
            == [(((x[i] != Back(x, i, 1)) != Back(x, i, 2)) != Back(x, i, 3)) != Back(x, i, 4),
                ((x[i] != Back(x, i, 1)) != Back(x, i, 3)) != Back(x, i, 4),
                (x[i] != Back(x, i, 2)) != Back(x, i, 4)][m]
  {
    CodewordOfStep(x, i, i + 1, m);
    SpeechTapsAt(x, i);
  }

  lemma SpeechTapsAt(x: seq<bool>, i: nat)
    requires i < |x|
    ensures SpeechOutputs(Register(x[..i + 1])) == SpeechTaps(x[i], Back(x, i, 1), Back(x, i, 2), Back(x, i, 3), Back(x, i, 4))
  {
    SpeechOutputsAreTaps(x[..i + 1]);
    FiveBack(x, i);
  }

  /** The bits of the two frames alternate in the order of the classes. */
  lemma FramesAlternate(t: ClassTables, acelp: seq<bool>, r: nat)
    requires t.Valid() && |acelp| == 274 && r < 137
    ensures ToChannel(t, acelp)[2 * r] == acelp[t.Order()[r]] && ToChannel(t, acelp)[2 * r + 1] == acelp[137 + t.Order()[r]]
  {
  }

  /** Type-3 bit of row `line` and column `col` is sent at 24 col + line, inverted where the stream is 1. */
  lemma SpeechBitOnAir(t: ClassTables, acelp: seq<bool>, init: bv32, line: nat, col: nat)
    requires t.Valid() && |acelp| == 274 && line < 24 && col < 18
    ensures SpeechTransmitted(t, acelp, init)[24 * col + line]
            == (Type3(ToChannel(t, acelp))[18 * line + col] != Stream(init, 432)[32 + 24 * col + line])
  {
    var s := Type3(ToChannel(t, acelp));
    MatrixBit(s, line, col);
    ScrambledBit(BlockInterleaved(s), init, 24 * col + line);
  }

  /** Class 0 as it is, then the code of class 1, class 2, its check bits and four zeros. */
  lemma Type3Bits(type1: seq<bool>, j: nat)
    requires |type1| == 274 && j < 432
    ensures Type3(type1)[j] == if j < 102 then type1[j] else SpeechCodeword(Protected(type1))[j - 102]
    ensures Protected(type1) == type1[102..214] + type1[214..274] + SpeechCrc.CheckBits(type1[214..274])
                                + [false, false, false, false]
  {
    CodedLengths(STEPS);
    assert type1[214..] == type1[214..274];
    assert type1[102..] == type1[102..214] + type1[214..274];
    assert Zeros(4) == [false, false, false, false];
    FourParts(type1[102..214], type1[214..274], SpeechCrc.CheckBits(type1[214..274]), Zeros(4));
  }

  lemma FourParts(a: seq<bool>, b: seq<bool>, c: seq<bool>, d: seq<bool>)
    ensures (a + b) + c + d == a + b + c + d
  {
  }
}
