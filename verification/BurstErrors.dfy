/**
 * Bursts on the air: the interleavers carry neighbouring wrong bits so far apart that the decoders
 * correct all of them.
 */
module BurstErrors {
  import opened BitSeq
  import opened Trellis
  import opened ConvCode
  import opened BranchMetrics
  import opened CodeDistance
  import opened ErrorCorrection
  import opened Interleaver
  import opened Scrambler
  import opened ChannelCodec
  import opened ControlChannels
  import opened SpeechCode
  import opened SpeechMetrics
  import opened ScatterHeights
  import opened ScatteredErrors

  // ---- Linearity ----

  lemma KeptLinear(code: Code, x: seq<bool>, z: seq<bool>, k: nat)
    requires |x| == |z|
    ensures KeptOuts(code, Register(Xor(x, z)), k) == Xor(KeptOuts(code, Register(x), k), KeptOuts(code, Register(z), k))
  {
    match code
    case Control => OutputsAreLinear(x, z);
    case Speech => SpeechOutputsAreLinear(x, z);
  }

  lemma {:induction false} CodedLinear(code: Code, x: seq<bool>, z: seq<bool>)
    requires |x| == |z|
    ensures Coded(code, Xor(x, z)) == Xor(Coded(code, x), Coded(code, z))
  {
    if |x| > 0 {
      var n := |x| - 1;
      CodedLinear(code, x[..n], z[..n]);
      KeptLinear(code, x, z, n);
      CodedLast(code, x, n);
      CodedLast(code, z, n);
      CodedLast(code, Xor(x, z), n);
      assert Xor(x, z)[..n] == Xor(x[..n], z[..n]);
      XorAppend(Coded(code, x[..n]), Coded(code, z[..n]), KeptOuts(code, Register(x), n), KeptOuts(code, Register(z), n));
    }
  }

  lemma XorAppend(a: seq<bool>, b: seq<bool>, c: seq<bool>, d: seq<bool>)
    requires |a| == |b| && |c| == |d|
    ensures Xor(a + c, b + d) == Xor(a, b) + Xor(c, d)
  {
  }

  /** Differences count alike after adding one word to both. */
  lemma ShiftedDistance(y: seq<bool>, c: seq<bool>, d: seq<bool>)
    requires |y| == |c| == |d|
    ensures Distance(y, d) == Distance(Xor(y, c), Xor(c, d))
  {
    DistanceCounts(y, d);
    DistanceCounts(Xor(y, c), Xor(c, d));
    assert Differences(Xor(y, c), Xor(c, d)) == Differences(y, d);
  }

  lemma DistanceToZeros(y: seq<bool>, c: seq<bool>)
    requires |y| == |c|
    ensures Distance(Xor(y, c), Zeros(|y|)) == Distance(y, c)
  {
    DistanceCounts(y, c);
    DistanceCounts(Xor(y, c), Zeros(|y|));
    assert Differences(Xor(y, c), Zeros(|y|)) == Differences(y, c);
  }

  /** With scattered errors every other codeword is farther from the received word than the sent one. */
  lemma OthersAreFarther(code: Code, y: seq<bool>, x: seq<bool>, z: seq<bool>)
    requires |x| == |z| && |y| == Before(code, |x|) && Terminated(x) && Terminated(z) && x != z
    requires Scattered(Xor(y, Coded(code, x)), Gap(code))
    ensures Distance(y, Coded(code, z)) >= Distance(y, Coded(code, x)) + 2
  {
    XorTerminated(x, z);
    XorNonzero(x, z);
    CodedLinear(code, x, z);
    ScatteredIsNearest(code, Xor(y, Coded(code, x)), Xor(x, z));
    ShiftedDistance(y, Coded(code, x), Coded(code, z));
    DistanceToZeros(y, Coded(code, x));
  }

  // ---- The two decoders ----

  lemma {:induction false} ControlCoded(x: seq<bool>, p: nat)
    requires |x| == 2 * p
    ensures Before(Control, 2 * p) == 3 * p && Coded(Control, x) == Codeword(x, p)
  {
    if p > 0 {
      var n := 2 * p - 2;
      ControlCoded(x[..n], p - 1);
      ControlPair(x[..n], p - 1, p, x[n], x[n + 1]);
      SplitLastTwo(x);
      assert x[..n] + [x[n]] + [x[n + 1]] == x;
    }
  }

  lemma ControlPair(x: seq<bool>, p: nat, n: nat, a: bool, b: bool)
    requires |x| == 2 * p && n == p + 1 && Coded(Control, x) == Codeword(x, p) && Before(Control, 2 * p) == 3 * p
    ensures Before(Control, 2 * n) == 3 * n && Coded(Control, x + [a] + [b]) == Codeword(x + [a] + [b], n)
  {
    CodewordExtend(x, p, a, b);
    EvenPhase(p);
    TwoSteps(x, |x|, |x| + 1, a, b);
  }

  /** An even step keeps two outputs, the next one the first. */
  lemma TwoSteps(x: seq<bool>, i: nat, j: nat, a: bool, b: bool)
    requires |x| == i && j == i + 1 && i % 2 == 0
    ensures Before(Control, j + 1) == Before(Control, i) + 3
    ensures Coded(Control, x + [a] + [b]) == Coded(Control, x) + PairOutputs(x, a, b)
  {
    CodedExtend(x, a);
    CodedExtend(x + [a], b);
    CodedLast(Control, x + [a], i);
    CodedLast(Control, x + [a] + [b], j);
    KeptPair(Register(x + [a]), Register(x + [a] + [b]), i, j);
    Joined(Coded(Control, x), KeptOuts(Control, Register(x + [a]), i), KeptOuts(Control, Register(x + [a] + [b]), j),
           PairOutputs(x, a, b));
  }

  lemma KeptPair(r: nat, r': nat, i: nat, j: nat)
    requires r < 32 && r' < 32 && j == i + 1 && i % 2 == 0
    ensures KeptOuts(Control, r, i) + KeptOuts(Control, r', j) == [Outputs(r)[0], Outputs(r)[1], Outputs(r')[0]]
  {
  }

  lemma Joined(c: seq<bool>, o: seq<bool>, o': seq<bool>, t: seq<bool>)
    requires o + o' == t
    ensures c + o + o' == c + t
  {
  }

  lemma CodedExtend(x: seq<bool>, b: bool)
    ensures Coded(Control, x + [b]) == Coded(Control, x) + KeptOuts(Control, Register(x + [b]), |x|)
  {
    CodedLast(Control, x + [b], |x|);
    assert (x + [b])[..|x|] == x;
  }

  lemma {:induction false} SpeechCoded(x: seq<bool>)
    ensures Before(Speech, |x|) == Offset(|x|) && Coded(Speech, x) == SpeechCodeword(x)
  {
    if |x| > 0 {
      SpeechCoded(x[..|x| - 1]);
    }
  }

  /** The hard decoder restores the sent word when any two wrong bits are 11 or more apart, however many there are. */
  lemma ScatteredErrorsAreCorrected(y: seq<bool>, p: nat, x: seq<bool>)
    requires |y| == 3 * p && |x| == 2 * p && Terminated(x) && Scattered(Xor(y, Codeword(x, p)), 11)
    ensures HardDecoded(y, p) == x
  {
    var z := HardDecoded(y, p);
    HardDecodedIsNearest(y, p, x);
    ControlCoded(x, p);
    ControlCoded(z, p);
    if z != x {
      OthersAreFarther(Control, y, x, z);
    }
  }

  /** The speech decoder does so from 17 on, in both classes and across their border. */
  lemma ScatteredSpeechErrorsAreCorrected(y: seq<bool>, x: seq<bool>)
    requires |y| == Offset(|x|) && Terminated(x) && Scattered(Xor(y, SpeechCodeword(x)), 17)
    ensures SpeechDecoded(SoftBits(y, 1), |x|) == x
  {
    var z := SpeechDecoded(SoftBits(y, 1), |x|);
    HardSpeechNearest(y, x);
    SpeechCoded(x);
    SpeechCoded(z);
    if z != x {
      OthersAreFarther(Speech, y, x, z);
    }
  }

  // ---- Bursts on the control channels ----

  /** All differences lie within a window of the given length. */
  ghost predicate DifferWithin(a: seq<bool>, b: seq<bool>, from: nat, length: nat)
    requires |a| == |b|
  {
    forall j :: 0 <= j < |a| && a[j] != b[j] ==> from <= j < from + length
  }

  /** Coded bits fewer than 11 apart are sent 20 or more apart, also around the end of the block. */
  lemma SchfNeighbours(k: nat, l: nat, i: nat, j: nat)
    requires 1 <= k < l <= 432 && l - k < 11 && i == Target(432, 103, k) && j == Target(432, 103, l)
    ensures i >= j + 20 || j >= i + 20
  {
    var q, r := (103 * k) / 432, (103 * l) / 432;
    assert 103 * k == 432 * q + i && 103 * l == 432 * r + j;
    SchfSteps(l - k, j - i, r - q);
  }

  lemma SchfSteps(d: int, e: int, q: int)
    requires 1 <= d <= 10 && 103 * d == 432 * q + e && -432 < e < 432
    ensures e >= 20 || e <= -20
  {
    match d
    case 1 => case 2 => case 3 => case 4 => case 5 => case 6 => case 7 => case 8 => case 9 => case _ =>
  }

  lemma SchhuNeighbours(k: nat, l: nat, i: nat, j: nat)
    requires 1 <= k < l <= 168 && l - k < 11 && i == Target(168, 13, k) && j == Target(168, 13, l)
    ensures i >= j + 13 || j >= i + 13
  {
    var q, r := (13 * k) / 168, (13 * l) / 168;
    assert 13 * k == 168 * q + i && 13 * l == 168 * r + j;
    SchhuSteps(l - k, j - i, r - q);
  }

  lemma SchhuSteps(d: int, e: int, q: int)
    requires 1 <= d <= 10 && 13 * d == 168 * q + e && -168 < e < 168
    ensures e >= 13 || e <= -13
  {
    match d
    case 1 => case 2 => case 3 => case 4 => case 5 => case 6 => case 7 => case 8 => case 9 => case _ =>
  }

  /** A coded bit is wrong where the block is wrong at the place that carries it. */
  lemma ErrorPosition(info: seq<bool>, p: nat, a: nat, init: bv32, block: seq<bool>, k: nat)
    requires |info| + 20 == 2 * p && Gcd(a, 3 * p) == 1 && |block| == 3 * p && 1 <= k <= 3 * p
    ensures var y, c := Deinterleaved(Scrambled(block, init), a), Codeword(Message(info), p);
            var j := Target(3 * p, a, k);
            (y[k - 1] != c[k - 1]) <==> block[j] != Transmitted(info, p, a, init)[j]
  {
    var c := Codeword(Message(info), p);
    InterleavedIsInterleaving(c, a);
    assert Interleaved(c, a)[Target(3 * p, a, k)] == c[k - 1];
  }

  /** SCH/F: a burst of up to 20 wrong bits anywhere in the block leaves return code 0 and the message. */
  lemma SchfSurvivesBurst(info: seq<bool>, init: bv32, block: seq<bool>, from: nat)
    requires |info| == 268 && |block| == 432
    ensures Gcd(SCHF_A, 3 * SCHF_GROUPS) == 1
    ensures DifferWithin(block, Transmitted(info, SCHF_GROUPS, SCHF_A, init), from, 20) ==>
              var x := Received(block, SCHF_GROUPS, SCHF_A, init);
              x == Message(info) && ControlChannels.ReturnCode(x) == 0 && x[..268] == info
  {
    InterleaversAreCoprime();
    if DifferWithin(block, Transmitted(info, SCHF_GROUPS, SCHF_A, init), from, 20) {
      SchfBurstScatters(info, init, block, from);
      MessageTerminated(info);
      ScatteredErrorsAreCorrected(Deinterleaved(Scrambled(block, init), SCHF_A), SCHF_GROUPS, Message(info));
      MessagePasses(info);
    }
  }

  lemma SchfBurstScatters(info: seq<bool>, init: bv32, block: seq<bool>, from: nat)
    requires |info| == 268 && |block| == 432 && Gcd(SCHF_A, 3 * SCHF_GROUPS) == 1
    requires DifferWithin(block, Transmitted(info, SCHF_GROUPS, SCHF_A, init), from, 20)
    ensures Scattered(Xor(Deinterleaved(Scrambled(block, init), SCHF_A), Codeword(Message(info), SCHF_GROUPS)), 11)
  {
    var y, c := Deinterleaved(Scrambled(block, init), SCHF_A), Codeword(Message(info), SCHF_GROUPS);
    forall i, j | 0 <= i < j < 432 && Xor(y, c)[i] && Xor(y, c)[j]
      ensures j - i >= 11
    {
      SchfPair(info, init, block, from, y, c, i, j);
    }
  }

  /** Two wrong coded bits come from places inside the burst. */
  lemma WithinWindow(info: seq<bool>, p: nat, a: nat, init: bv32, block: seq<bool>, from: nat, length: nat,
                     y: seq<bool>, c: seq<bool>, k: nat, l: nat)
    requires |info| + 20 == 2 * p && Gcd(a, 3 * p) == 1 && |block| == 3 * p && 1 <= k <= 3 * p && 1 <= l <= 3 * p
    requires DifferWithin(block, Transmitted(info, p, a, init), from, length)
    requires y == Deinterleaved(Scrambled(block, init), a) && c == Codeword(Message(info), p)
    requires y[k - 1] != c[k - 1] && y[l - 1] != c[l - 1]
    ensures var i, j := Target(3 * p, a, k), Target(3 * p, a, l); i < j + length && j < i + length
  {
    ErrorPosition(info, p, a, init, block, k);
    ErrorPosition(info, p, a, init, block, l);
  }

  lemma SchfPair(info: seq<bool>, init: bv32, block: seq<bool>, from: nat, y: seq<bool>, c: seq<bool>, i: nat, j: nat)
    requires |info| == 268 && |block| == 432 && Gcd(SCHF_A, 3 * SCHF_GROUPS) == 1
    requires DifferWithin(block, Transmitted(info, SCHF_GROUPS, SCHF_A, init), from, 20)
    requires y == Deinterleaved(Scrambled(block, init), SCHF_A) && c == Codeword(Message(info), SCHF_GROUPS)
    requires i < j < 432 && y[i] != c[i] && y[j] != c[j]
    ensures j - i >= 11
  {
    WithinWindow(info, SCHF_GROUPS, SCHF_A, init, block, from, 20, y, c, i + 1, j + 1);
    if j - i < 11 {
      SchfNeighbours(i + 1, j + 1, Target(432, 103, i + 1), Target(432, 103, j + 1));
    }
  }

  /** SCH/HU: the same for bursts of up to 13 wrong bits. */
  lemma SchhuSurvivesBurst(info: seq<bool>, init: bv32, block: seq<bool>, from: nat)
    requires |info| == 92 && |block| == 168
    ensures Gcd(SCHHU_A, 3 * SCHHU_GROUPS) == 1
    ensures DifferWithin(block, Transmitted(info, SCHHU_GROUPS, SCHHU_A, init), from, 13) ==>
              var x := Received(block, SCHHU_GROUPS, SCHHU_A, init);
              x == Message(info) && ControlChannels.ReturnCode(x) == 0 && x[..92] == info
  {
    InterleaversAreCoprime();
    if DifferWithin(block, Transmitted(info, SCHHU_GROUPS, SCHHU_A, init), from, 13) {
      SchhuBurstScatters(info, init, block, from);
      MessageTerminated(info);
      ScatteredErrorsAreCorrected(Deinterleaved(Scrambled(block, init), SCHHU_A), SCHHU_GROUPS, Message(info));
      MessagePasses(info);
    }
  }

  lemma SchhuBurstScatters(info: seq<bool>, init: bv32, block: seq<bool>, from: nat)
    requires |info| == 92 && |block| == 168 && Gcd(SCHHU_A, 3 * SCHHU_GROUPS) == 1
    requires DifferWithin(block, Transmitted(info, SCHHU_GROUPS, SCHHU_A, init), from, 13)
    ensures Scattered(Xor(Deinterleaved(Scrambled(block, init), SCHHU_A), Codeword(Message(info), SCHHU_GROUPS)), 11)
  {
    var y, c := Deinterleaved(Scrambled(block, init), SCHHU_A), Codeword(Message(info), SCHHU_GROUPS);
    forall i, j | 0 <= i < j < 168 && Xor(y, c)[i] && Xor(y, c)[j]
      ensures j - i >= 11
    {
      SchhuPair(info, init, block, from, y, c, i, j);
    }
  }

  lemma SchhuPair(info: seq<bool>, init: bv32, block: seq<bool>, from: nat, y: seq<bool>, c: seq<bool>, i: nat, j: nat)
    requires |info| == 92 && |block| == 168 && Gcd(SCHHU_A, 3 * SCHHU_GROUPS) == 1
    requires DifferWithin(block, Transmitted(info, SCHHU_GROUPS, SCHHU_A, init), from, 13)
    requires y == Deinterleaved(Scrambled(block, init), SCHHU_A) && c == Codeword(Message(info), SCHHU_GROUPS)
    requires i < j < 168 && y[i] != c[i] && y[j] != c[j]
    ensures j - i >= 11
  {
    WithinWindow(info, SCHHU_GROUPS, SCHHU_A, init, block, from, 13, y, c, i + 1, j + 1);
    if j - i < 11 {
      SchhuNeighbours(i + 1, j + 1, Target(168, 13, i + 1), Target(168, 13, j + 1));
    }
  }
}
