/**
 * The 16-bit frame check sequence of ETSI EN 300 392-2 section 8.2.2: generator
 * x^16 + x^12 + x^5 + 1, register preset to ones, complement appended, bits most significant first.
 *
 * The theory runs on registers as sequences of 16 bits (index 0 is the most significant bit); the
 * loops run on 16-bit words, and StepRefines and ReflectedStepRefines connect the two.
 */
module Crc16 {
  import opened BitSeq

  type Register16 = r: seq<bool> | |r| == 16 witness Zeros(16)

  const CRC_POLY: bv16 := 0x1021
  const DLL_POLY: bv16 := 0x8408
  const DLL_GOOD: bv16 := 0xF0B8

  function Ones(n: nat): (r: seq<bool>)
    ensures |r| == n
    ensures forall i :: 0 <= i < n ==> r[i]
  {
    seq(n, _ => true)
  }

  function Complement(a: seq<bool>): (r: seq<bool>)
    ensures |r| == |a|
  {
    Xor(a, Ones(|a|))
  }

  /** Positions of x^12, x^5 and 1 of the generator, counted from the most significant bit. */
  predicate InGenerator(i: int) {
    i == 3 || i == 10 || i == 15
  }

  /** Shift left by one and add the generator when the bit shifted out differs from b. */
  function Step(c: Register16, b: bool): Register16 {
    seq(16, i requires 0 <= i < 16 => (i < 15 && c[i + 1]) != ((b != c[0]) && InGenerator(i)))
  }

  function Run(c: Register16, bits: seq<bool>): Register16
    decreases |bits|
  {
    if |bits| == 0 then c else Run(Step(c, bits[0]), bits[1..])
  }

  /** The check bits appended to info. */
  function Fcs(info: seq<bool>): Register16 {
    Complement(Run(Ones(16), info))
  }

  function WithFcs(info: seq<bool>): (w: seq<bool>)
    ensures |w| == |info| + 16
  {
    info + Fcs(info)
  }

  /** Does the word end in the check bits of what precedes them? */
  predicate Accepts(word: seq<bool>)
    requires |word| >= 16
  {
    word[|word| - 16..] == Fcs(word[..|word| - 16])
  }

  // ---- Linearity ----

  lemma StepLinear(c: Register16, d: Register16, a: bool, b: bool)
    ensures Step(Xor(c, d), a != b) == Xor(Step(c, a), Step(d, b))
  {
  }

  lemma {:induction false} RunLinear(c: Register16, d: Register16, x: seq<bool>, y: seq<bool>)
    requires |x| == |y|
    ensures Run(Xor(c, d), Xor(x, y)) == Xor(Run(c, x), Run(d, y))
    decreases |x|
  {
    if |x| > 0 {
      StepLinear(c, d, x[0], y[0]);
      RunLinear(Step(c, x[0]), Step(d, y[0]), x[1..], y[1..]);
      assert Xor(x, y)[1..] == Xor(x[1..], y[1..]);
    }
  }

  lemma {:induction false} RunAppend(c: Register16, x: seq<bool>, y: seq<bool>)
    ensures Run(c, x + y) == Run(Run(c, x), y)
    decreases |x|
  {
    if |x| == 0 {
      assert x + y == y;
    } else {
      RunAppend(Step(c, x[0]), x[1..], y);
      assert (x + y)[1..] == x[1..] + y;
    }
  }

  lemma {:induction false} RunZeros(n: nat)
    ensures Run(Zeros(16), Zeros(n)) == Zeros(16)
  {
    if n > 0 {
      assert Step(Zeros(16), false) == Zeros(16);
      assert Zeros(n)[1..] == Zeros(n - 1);
      RunZeros(n - 1);
    }
  }

  // ---- Short inputs are injective ----

  lemma StepBack(c: Register16, b: bool, rest: seq<bool>)
    requires |rest| < 16 && Step(c, b) == rest + Zeros(16 - |rest|)
    ensures c == [b] + rest + Zeros(15 - |rest|)
  {
    var s := Step(c, b);
    assert !s[15];
    assert b == c[0];
    forall i | 0 < i < 16
      ensures c[i] == ([b] + rest + Zeros(15 - |rest|))[i]
    {
      assert s[i - 1] == (rest + Zeros(16 - |rest|))[i - 1];
    }
  }

  /** At most 16 bits clear the register only if they are its leading bits and the rest is zero. */
  lemma {:induction false} ClearedBy(c: Register16, bits: seq<bool>)
    requires |bits| <= 16 && Run(c, bits) == Zeros(16)
    ensures c == bits + Zeros(16 - |bits|)
    decreases |bits|
  {
    if |bits| > 0 {
      ClearedBy(Step(c, bits[0]), bits[1..]);
      StepBack(c, bits[0], bits[1..]);
      assert bits == [bits[0]] + bits[1..];
    }
  }

  lemma {:induction false} ClearsItself(c: Register16, bits: seq<bool>)
    requires |bits| <= 16 && c == bits + Zeros(16 - |bits|)
    ensures Run(c, bits) == Zeros(16)
    decreases |bits|
  {
    if |bits| > 0 {
      var s := Step(c, bits[0]);
      assert s == bits[1..] + Zeros(16 - |bits[1..]|);
      ClearsItself(s, bits[1..]);
    }
  }

  // ---- The check as a syndrome ----

  /** Only its own bits clear a register. */
  lemma ClearsOnlyItself(c: Register16, bits: Register16)
    ensures Run(c, bits) == Zeros(16) <==> bits == c
  {
    if Run(c, bits) == Zeros(16) {
      ClearedBy(c, bits);
    }
    if bits == c {
      assert c == c + Zeros(0);
      ClearsItself(c, c);
    }
  }

  lemma ComplementTwice(c: Register16, fcs: Register16)
    ensures Complement(fcs) == c <==> fcs == Complement(c)
  {
    assert Complement(Complement(fcs)) == fcs && Complement(Complement(c)) == c;
  }

  /** A word is accepted if and only if the word with complemented check bits clears the register. */
  lemma AcceptsIffClears(info: seq<bool>, fcs: Register16)
    ensures Accepts(info + fcs) <==> Run(Ones(16), info + Complement(fcs)) == Zeros(16)
  {
    var c := Run(Ones(16), info);
    RunAppend(Ones(16), info, Complement(fcs));
    assert (info + fcs)[..|info + fcs| - 16] == info && (info + fcs)[|info + fcs| - 16..] == fcs;
    ClearsOnlyItself(c, Complement(fcs));
    ComplementTwice(c, fcs);
  }

  /** What the encoder appends is accepted. */
  lemma WithFcsAccepted(info: seq<bool>)
    ensures Accepts(WithFcs(info))
  {
    var w := WithFcs(info);
    assert w[..|w| - 16] == info && w[|w| - 16..] == Fcs(info);
  }

  /** The word with its check bits complemented. */
  function Flipped(word: seq<bool>): (r: seq<bool>)
    requires |word| >= 16
    ensures |r| == |word|
  {
    word[..|word| - 16] + Complement(word[|word| - 16..])
  }

  lemma AcceptsIffFlippedClears(word: seq<bool>)
    requires |word| >= 16
    ensures Accepts(word) <==> Run(Ones(16), Flipped(word)) == Zeros(16)
  {
    var n := |word| - 16;
    AcceptsIffClears(word[..n], word[n..]);
    assert word == word[..n] + word[n..];
  }

  lemma FlippedXor(word: seq<bool>, e: seq<bool>)
    requires |word| == |e| >= 16
    ensures Flipped(Xor(word, e)) == Xor(Flipped(word), e)
  {
  }

  /** An accepted word hit by the error e is accepted again if and only if e clears the zero register. */
  lemma ErrorAcceptedIff(word: seq<bool>, e: seq<bool>)
    requires |word| == |e| >= 16 && Accepts(word)
    ensures Accepts(Xor(word, e)) <==> Run(Zeros(16), e) == Zeros(16)
  {
    AcceptsIffFlippedClears(word);
    AcceptsIffFlippedClears(Xor(word, e));
    FlippedXor(word, e);
    RunLinear(Ones(16), Zeros(16), Flipped(word), e);
    assert Xor(Ones(16), Zeros(16)) == Ones(16);
    assert Xor(Zeros(16), Run(Zeros(16), e)) == Run(Zeros(16), e);
  }

  /** All 1s of e lie within 16 consecutive positions. */
  ghost predicate IsBurst(e: seq<bool>) {
    forall i, j :: 0 <= i <= j < |e| && e[i] && e[j] ==> j - i < 16
  }

  lemma ZeroStepInjective(c: Register16)
    ensures Step(c, false) == Zeros(16) ==> c == Zeros(16)
  {
    if Step(c, false) == Zeros(16) {
      StepBack(c, false, []);
    }
  }

  lemma {:induction false} ZeroStepsKeepNonzero(c: Register16, n: nat)
    requires c != Zeros(16)
    ensures Run(c, Zeros(n)) != Zeros(16)
    decreases n
  {
    if n > 0 {
      ZeroStepInjective(c);
      assert Zeros(n)[1..] == Zeros(n - 1);
      ZeroStepsKeepNonzero(Step(c, false), n - 1);
    }
  }

  lemma LeadingOneDoesNotClear(bits: seq<bool>)
    requires 0 < |bits| <= 16 && bits[0]
    ensures Run(Zeros(16), bits) != Zeros(16)
  {
    assert Zeros(16)[0] != (bits + Zeros(16 - |bits|))[0];
    if Run(Zeros(16), bits) == Zeros(16) {
      ClearedBy(Zeros(16), bits);
    }
  }

  lemma PaddedBurst(e: seq<bool>, f: nat, m: nat)
    requires f < m <= |e| && m - f <= 16 && e[f]
    requires e[..f] == Zeros(f) && e[m..] == Zeros(|e| - m)
    ensures Run(Zeros(16), e) != Zeros(16)
  {
    var burst := e[f..m];
    RunParts(Zeros(16), e[..f], burst, e[m..]);
    RunZeros(f);
    LeadingOneDoesNotClear(burst);
    ZeroStepsKeepNonzero(Run(Zeros(16), burst), |e| - m);
    SplitInThree(e, f, m);
  }

  lemma BurstTail(e: seq<bool>, f: nat, m: nat)
    requires IsBurst(e) && f < m <= |e| && e[f] && (m == f + 16 || m == |e|)
    ensures e[m..] == Zeros(|e| - m)
  {
    forall i | m <= i < |e|
      ensures !e[i]
    {
      assert e[i] ==> i - f < 16;
    }
  }

  /** No nonzero error confined to 16 consecutive bits clears the register. */
  lemma BurstDoesNotClear(e: seq<bool>)
    requires IsBurst(e) && exists i :: 0 <= i < |e| && e[i]
    ensures Run(Zeros(16), e) != Zeros(16)
  {
    var f := FirstOne(e, 0);
    var m := if f + 16 <= |e| then f + 16 else |e|;
    BurstTail(e, f, m);
    assert e[..f] == Zeros(f);
    PaddedBurst(e, f, m);
  }

  lemma RunParts(c: Register16, x: seq<bool>, y: seq<bool>, z: seq<bool>)
    ensures Run(c, x + (y + z)) == Run(Run(Run(c, x), y), z)
  {
    RunAppend(c, x, y + z);
    RunAppend(Run(c, x), y, z);
  }

  /** The check rejects every nonzero error within 16 consecutive bits, check bits included. */
  lemma RejectsBursts(word: seq<bool>, e: seq<bool>)
    requires |word| == |e| >= 16 && Accepts(word)
    requires IsBurst(e) && exists i :: 0 <= i < |e| && e[i]
    ensures !Accepts(Xor(word, e))
  {
    ErrorAcceptedIff(word, e);
    BurstDoesNotClear(e);
  }

  // ---- Odd-weight errors ----

  lemma {:induction false} ParityOfRest(x: seq<bool>)
    requires |x| > 0
    ensures Parity(x) == (x[0] != Parity(x[1..]))
  {
    if |x| > 1 {
      ParityOfRest(x[..|x| - 1]);
      assert x[..|x| - 1][1..] == x[1..][..|x| - 2];
    }
  }

  predicate OddRegister(c: Register16) {
    ((((c[0] != c[1]) != (c[2] != c[3])) != ((c[4] != c[5]) != (c[6] != c[7])))
     != (((c[8] != c[9]) != (c[10] != c[11])) != ((c[12] != c[13]) != (c[14] != c[15]))))
  }

  /** The generator has an even number of terms, so every step adds the input bit to the parity. */
  lemma StepParity(c: Register16, b: bool)
    ensures OddRegister(Step(c, b)) == (OddRegister(c) != b)
  {
    var s, f := Step(c, b), b != c[0];
    assert s[0] == c[1] && s[1] == c[2] && s[2] == c[3] && s[3] == (c[4] != f);
    assert s[4] == c[5] && s[5] == c[6] && s[6] == c[7] && s[7] == c[8];
    assert s[8] == c[9] && s[9] == c[10] && s[10] == (c[11] != f) && s[11] == c[12];
    assert s[12] == c[13] && s[13] == c[14] && s[14] == c[15] && s[15] == f;
  }

  lemma {:induction false} RunParity(c: Register16, x: seq<bool>)
    ensures OddRegister(Run(c, x)) == (OddRegister(c) != Parity(x))
    decreases |x|
  {
    if |x| > 0 {
      ParityOfRest(x);
      StepParity(c, x[0]);
      RunParity(Step(c, x[0]), x[1..]);
    }
  }

  /** The check rejects every error that hits an odd number of bits. */
  lemma RejectsOddErrors(word: seq<bool>, e: seq<bool>)
    requires |word| == |e| >= 16 && Accepts(word) && Parity(e)
    ensures !Accepts(Xor(word, e))
  {
    ErrorAcceptedIff(word, e);
    RunParity(Zeros(16), e);
  }

  // ---- Word-sized registers ----

  /** (c >> (15 - i)) & 1, written as a mask. */
  predicate TopBit(c: bv16, i: nat)
    requires i < 16
  {
    match i
    case 0 => c & 0x8000 != 0
    case 1 => c & 0x4000 != 0
    case 2 => c & 0x2000 != 0
    case 3 => c & 0x1000 != 0
    case 4 => c & 0x800 != 0
    case 5 => c & 0x400 != 0
    case 6 => c & 0x200 != 0
    case 7 => c & 0x100 != 0
    case 8 => c & 0x80 != 0
    case 9 => c & 0x40 != 0
    case 10 => c & 0x20 != 0
    case 11 => c & 0x10 != 0
    case 12 => c & 0x8 != 0
    case 13 => c & 0x4 != 0
    case 14 => c & 0x2 != 0
    case _ => c & 0x1 != 0
  }

  /** (c >> i) & 1, written as a mask. */
  predicate LowBit(c: bv16, i: nat)
    requires i < 16
  {
    match i
    case 0 => c & 0x1 != 0
    case 1 => c & 0x2 != 0
    case 2 => c & 0x4 != 0
    case 3 => c & 0x8 != 0
    case 4 => c & 0x10 != 0
    case 5 => c & 0x20 != 0
    case 6 => c & 0x40 != 0
    case 7 => c & 0x80 != 0
    case 8 => c & 0x100 != 0
    case 9 => c & 0x200 != 0
    case 10 => c & 0x400 != 0
    case 11 => c & 0x800 != 0
    case 12 => c & 0x1000 != 0
    case 13 => c & 0x2000 != 0
    case 14 => c & 0x4000 != 0
    case _ => c & 0x8000 != 0
  }

  lemma TopBitIsShift(c: bv16, i: nat)
    requires i < 16
    ensures TopBit(c, i) == ((c >> (15 - i)) & 1 == 1)
  {
    match i
    case 0 =>
    case 1 =>
    case 2 =>
    case 3 =>
    case 4 =>
    case 5 =>
    case 6 =>
    case 7 =>
    case 8 =>
    case 9 =>
    case 10 =>
    case 11 =>
    case 12 =>
    case 13 =>
    case 14 =>
    case _ =>
  }

  /** The bits of a word, most significant first. */
  function RegisterOf(c: bv16): Register16 {
    seq(16, i requires 0 <= i < 16 => TopBit(c, i))
  }

  /** The bits of a word, least significant first: a register shifted to the right. */
  function ReflectedOf(c: bv16): Register16 {
    seq(16, i requires 0 <= i < 16 => LowBit(c, i))
  }

  /** One round of the source's loop, most significant bit first. */
  function WordStep(crc: bv16, b: bool): bv16 {
    var feedback := b != ((crc >> 15) & 1 == 1);
    if feedback then (crc << 1) ^ CRC_POLY else crc << 1
  }

  /** One round of the bit-reversed loop. */
  function ReflectedStep(crc: bv16, b: bool): bv16 {
    var feedback := b != (crc & 1 == 1);
    if feedback then (crc >> 1) ^ DLL_POLY else crc >> 1
  }

  lemma WordStepUpper(c: bv16, b: bool)
    ensures var d, f := WordStep(c, b), b != TopBit(c, 0);
            && TopBit(d, 0) == TopBit(c, 1)
            && TopBit(d, 1) == TopBit(c, 2)
            && TopBit(d, 2) == TopBit(c, 3)
            && TopBit(d, 3) == (TopBit(c, 4) != f)
            && TopBit(d, 4) == TopBit(c, 5)
            && TopBit(d, 5) == TopBit(c, 6)
            && TopBit(d, 6) == TopBit(c, 7)
            && TopBit(d, 7) == TopBit(c, 8)
  {
  }

  lemma WordStepLower(c: bv16, b: bool)
    ensures var d, f := WordStep(c, b), b != TopBit(c, 0);
            && TopBit(d, 8) == TopBit(c, 9)
            && TopBit(d, 9) == TopBit(c, 10)
            && TopBit(d, 10) == (TopBit(c, 11) != f)
            && TopBit(d, 11) == TopBit(c, 12)
            && TopBit(d, 12) == TopBit(c, 13)
            && TopBit(d, 13) == TopBit(c, 14)
            && TopBit(d, 14) == TopBit(c, 15)
            && TopBit(d, 15) == f
  {
  }

  lemma WordStepAt(c: bv16, b: bool, i: nat)
    requires i < 16
    ensures TopBit(WordStep(c, b), i) == ((i < 15 && TopBit(c, i + 1)) != ((b != TopBit(c, 0)) && InGenerator(i)))
  {
    if i < 8 {
      WordStepUpper(c, b);
    } else {
      WordStepLower(c, b);
    }
    match i
    case 0 =>
    case 1 =>
    case 2 =>
    case 3 =>
    case 4 =>
    case 5 =>
    case 6 =>
    case 7 =>
    case 8 =>
    case 9 =>
    case 10 =>
    case 11 =>
    case 12 =>
    case 13 =>
    case 14 =>
    case _ =>
  }

  lemma ReflectedStepUpper(c: bv16, b: bool)
    ensures var d, f := ReflectedStep(c, b), b != LowBit(c, 0);
            && LowBit(d, 0) == LowBit(c, 1)
            && LowBit(d, 1) == LowBit(c, 2)
            && LowBit(d, 2) == LowBit(c, 3)
            && LowBit(d, 3) == (LowBit(c, 4) != f)
            && LowBit(d, 4) == LowBit(c, 5)
            && LowBit(d, 5) == LowBit(c, 6)
            && LowBit(d, 6) == LowBit(c, 7)
            && LowBit(d, 7) == LowBit(c, 8)
  {
  }

  lemma ReflectedStepLower(c: bv16, b: bool)
    ensures var d, f := ReflectedStep(c, b), b != LowBit(c, 0);
            && LowBit(d, 8) == LowBit(c, 9)
            && LowBit(d, 9) == LowBit(c, 10)
            && LowBit(d, 10) == (LowBit(c, 11) != f)
            && LowBit(d, 11) == LowBit(c, 12)
            && LowBit(d, 12) == LowBit(c, 13)
            && LowBit(d, 13) == LowBit(c, 14)
            && LowBit(d, 14) == LowBit(c, 15)
            && LowBit(d, 15) == f
  {
  }

  /** Bit i after a step: the next higher bit, inverted at the generator's places when the bits differ. */
  predicate ReflectedBit(c: bv16, b: bool, i: nat)
    requires i < 16
  {
    LowBit(ReflectedStep(c, b), i) == ((i < 15 && LowBit(c, i + 1)) != ((b != LowBit(c, 0)) && InGenerator(i)))
  }

  lemma ReflectedUpperAt(c: bv16, b: bool, i: nat)
    requires i < 8
    ensures ReflectedBit(c, b, i)
  {
    ReflectedStepUpper(c, b);
    match i
    case 0 => case 1 => case 2 => case 3 => case 4 => case 5 => case 6 => case _ =>
  }

  lemma ReflectedLowerAt(c: bv16, b: bool, i: nat)
    requires 8 <= i < 16
    ensures ReflectedBit(c, b, i)
  {
    ReflectedStepLower(c, b);
    match i
    case 8 => case 9 => case 10 => case 11 => case 12 => case 13 => case 14 => case _ =>
  }

  lemma ReflectedStepAt(c: bv16, b: bool, i: nat)
    requires i < 16
    ensures LowBit(ReflectedStep(c, b), i) == ((i < 15 && LowBit(c, i + 1)) != ((b != LowBit(c, 0)) && InGenerator(i)))
  {
    if i < 8 {
      ReflectedUpperAt(c, b, i);
    } else {
      ReflectedLowerAt(c, b, i);
    }
  }

  /** The word-sized step is the step of the register. */
  lemma StepRefines(c: bv16, b: bool)
    ensures RegisterOf(WordStep(c, b)) == Step(RegisterOf(c), b)
  {
    forall i | 0 <= i < 16
      ensures RegisterOf(WordStep(c, b))[i] == Step(RegisterOf(c), b)[i]
    {
      WordStepAt(c, b, i);
    }
  }

  /** The bit-reversed step is the same step read from the other end. */
  lemma ReflectedStepRefines(c: bv16, b: bool)
    ensures ReflectedOf(ReflectedStep(c, b)) == Step(ReflectedOf(c), b)
  {
    forall i | 0 <= i < 16
      ensures ReflectedOf(ReflectedStep(c, b))[i] == Step(ReflectedOf(c), b)[i]
    {
      ReflectedStepAt(c, b, i);
    }
  }

  // ---- The loops ----

  lemma RunExtend(c: Register16, x: seq<bool>, b: bool)
    ensures Run(c, x + [b]) == Step(Run(c, x), b)
  {
    RunAppend(c, x, [b]);
    assert [b][1..] == [];
  }

  lemma RunOneMore(c: Register16, x: seq<bool>, i: nat)
    requires i < |x|
    ensures Run(c, x[..i + 1]) == Step(Run(c, x[..i]), x[i])
  {
    RunExtend(c, x[..i], x[i]);
    assert x[..i] + [x[i]] == x[..i + 1];
  }

  lemma AllOnes()
    ensures RegisterOf(0xFFFF) == Ones(16) && ReflectedOf(0xFFFF) == Ones(16)
  {
  }

  lemma ComplementWord(c: bv16)
    ensures RegisterOf(c ^ 0xFFFF) == Complement(RegisterOf(c))
  {
    forall i | 0 <= i < 16
      ensures TopBit(c ^ 0xFFFF, i) == !TopBit(c, i)
    {
      ComplementBit(c, i);
    }
  }

  lemma ComplementUpper(c: bv16)
    ensures var d := c ^ 0xFFFF;
            && TopBit(d, 0) == !TopBit(c, 0)
            && TopBit(d, 1) == !TopBit(c, 1)
            && TopBit(d, 2) == !TopBit(c, 2)
            && TopBit(d, 3) == !TopBit(c, 3)
            && TopBit(d, 4) == !TopBit(c, 4)
            && TopBit(d, 5) == !TopBit(c, 5)
            && TopBit(d, 6) == !TopBit(c, 6)
            && TopBit(d, 7) == !TopBit(c, 7)
  {
  }

  lemma ComplementLower(c: bv16)
    ensures var d := c ^ 0xFFFF;
            && TopBit(d, 8) == !TopBit(c, 8)
            && TopBit(d, 9) == !TopBit(c, 9)
            && TopBit(d, 10) == !TopBit(c, 10)
            && TopBit(d, 11) == !TopBit(c, 11)
            && TopBit(d, 12) == !TopBit(c, 12)
            && TopBit(d, 13) == !TopBit(c, 13)
            && TopBit(d, 14) == !TopBit(c, 14)
            && TopBit(d, 15) == !TopBit(c, 15)
  {
  }

  lemma ComplementBit(c: bv16, i: nat)
    requires i < 16
    ensures TopBit(c ^ 0xFFFF, i) == !TopBit(c, i)
  {
    if i < 8 {
      ComplementUpper(c);
    } else {
      ComplementLower(c);
    }
    match i
    case 0 =>
    case 1 =>
    case 2 =>
    case 3 =>
    case 4 =>
    case 5 =>
    case 6 =>
    case 7 =>
    case 8 =>
    case 9 =>
    case 10 =>
    case 11 =>
    case 12 =>
    case 13 =>
    case 14 =>
    case _ =>
  }

  /** One round of the loop on the word. */
  method ShiftInBit(crc: bv16, b: bool) returns (next: bv16)
    ensures RegisterOf(next) == Step(RegisterOf(crc), b)
  {
    var feedback := b != ((crc >> 15) & 1 == 1);
    next := crc << 1;
    if feedback {
      next := next ^ CRC_POLY;
    }
    StepRefines(crc, b);
  }

  /** (crc >> (15 - i)) & 1. */
  method BitOf(crc: bv16, i: nat) returns (b: bool)
    requires i < 16
    ensures b == RegisterOf(crc)[i]
  {
    b := (crc >> (15 - i)) & 1 == 1;
    TopBitIsShift(crc, i);
  }

  /** The complemented shift register after the bits. */
  method CheckWord(bits: seq<bool>) returns (crc: bv16)
    ensures RegisterOf(crc) == Fcs(bits)
  {
    crc := 0xFFFF;
    AllOnes();
    for i := 0 to |bits|
      invariant RegisterOf(crc) == Run(Ones(16), bits[..i])
    {
      RunOneMore(Ones(16), bits, i);
      crc := ShiftInBit(crc, bits[i]);
    }
    assert bits[..|bits|] == bits;
    ComplementWord(crc);
    crc := crc ^ 0xFFFF;
  }

  /** Copies the bits to out and appends the 16 check bits. */
  method AppendCrc16(bits: seq<bool>, out: array<bool>)
    requires out.Length >= |bits| + 16
    modifies out
    ensures out[..|bits| + 16] == WithFcs(bits)
    ensures out[|bits| + 16..] == old(out[|bits| + 16..])
  {
    var n := |bits|;
    for i := 0 to n
      invariant out[..i] == bits[..i]
      invariant out[n + 16..] == old(out[n + 16..])
    {
      out[i] := bits[i];
    }
    var crc := CheckWord(bits);
    ghost var fcs := Fcs(bits);
    for i := 0 to 16
      invariant out[..n] == bits
      invariant out[n..n + i] == fcs[..i]
      invariant out[n + 16..] == old(out[n + 16..])
    {
      out[n + i] := BitOf(crc, i);
    }
    assert out[..n + 16] == out[..n] + out[n..n + 16];
  }

  lemma AcceptsPrefix(bits: seq<bool>, infoLen: nat)
    requires infoLen + 16 <= |bits|
    ensures Accepts(bits[..infoLen + 16]) <==> bits[infoLen..infoLen + 16] == Fcs(bits[..infoLen])
  {
    var word := bits[..infoLen + 16];
    assert word[..infoLen] == bits[..infoLen] && word[infoLen..] == bits[infoLen..infoLen + 16];
  }

  /** Recomputes the check bits over infoLen bits and compares them with the 16 that follow. */
  method CheckCrc16(bits: seq<bool>, infoLen: nat) returns (ok: bool)
    requires infoLen + 16 <= |bits|
    ensures ok == Accepts(bits[..infoLen + 16])
  {
    AcceptsPrefix(bits, infoLen);
    var crc := CheckWord(bits[..infoLen]);
    ghost var tail := bits[infoLen..infoLen + 16];
    for i := 0 to 16
      invariant forall j :: 0 <= j < i ==> tail[j] == RegisterOf(crc)[j]
    {
      var want := BitOf(crc, i);
      if bits[infoLen + i] != want {
        assert tail[i] != RegisterOf(crc)[i];
        return false;
      }
    }
    assert tail == RegisterOf(crc);
    return true;
  }

  // ---- The bit-reversed check with a residue ----

  lemma ResidueAfterOnes()
    ensures Run(Zeros(16), Ones(16)) == ReflectedOf(DLL_GOOD)
  {
    assert ReflectedOf(0) == Zeros(16);
    var c: bv16 := 0;
    var i := 0;
    while i < 16
      invariant 0 <= i <= 16 && Run(Zeros(16), Ones(i)) == ReflectedOf(c)
      invariant c == AfterOnes(i)
    {
      ReflectedStepRefines(c, true);
      assert Ones(i + 1)[..i] == Ones(i) && Ones(i + 1)[..i + 1] == Ones(i + 1);
      RunOneMore(Zeros(16), Ones(i + 1), i);
      c := ReflectedStep(c, true);
      i := i + 1;
    }
    SixteenOnes();
  }

  /** The bit-reversed register after n ones from zero. */
  function AfterOnes(n: nat): bv16 {
    if n == 0 then 0 else ReflectedStep(AfterOnes(n - 1), true)
  }

  lemma SixteenOnes()
    ensures AfterOnes(16) == DLL_GOOD
  {
    assert AfterOnes(1) == 0x8408;
    assert AfterOnes(2) == 0xC60C;
    assert AfterOnes(3) == 0xE70E;
    assert AfterOnes(4) == 0xF78F;
    assert AfterOnes(5) == 0x7BC7;
    assert AfterOnes(6) == 0x3DE3;
    assert AfterOnes(7) == 0x1EF1;
    assert AfterOnes(8) == 0xF78;
    assert AfterOnes(9) == 0x83B4;
    assert AfterOnes(10) == 0xC5D2;
    assert AfterOnes(11) == 0xE6E1;
    assert AfterOnes(12) == 0x7370;
    assert AfterOnes(13) == 0xBDB0;
    assert AfterOnes(14) == 0xDAD0;
    assert AfterOnes(15) == 0xE960;
    assert AfterOnes(16) == 0xF0B8;
  }

  lemma FlippedByMask(word: seq<bool>, n: nat)
    requires |word| == n + 16
    ensures Flipped(word) == Xor(word, Zeros(n) + Ones(16))
  {
  }

  lemma OnesOnly()
    ensures Xor(Ones(16), Zeros(16)) == Ones(16)
  {
  }

  lemma RunOverMask(n: nat)
    ensures Run(Zeros(16), Zeros(n) + Ones(16)) == ReflectedOf(DLL_GOOD)
  {
    RunAppend(Zeros(16), Zeros(n), Ones(16));
    RunZeros(n);
    ResidueAfterOnes();
  }

  /** A word is accepted if and only if the whole of it leaves the fixed residue. */
  lemma AcceptsIffResidue(word: seq<bool>)
    requires |word| >= 16
    ensures Accepts(word) <==> Run(Ones(16), word) == ReflectedOf(DLL_GOOD)
  {
    var n := |word| - 16;
    AcceptsIffFlippedClears(word);
    FlippedByMask(word, n);
    RunOverMask(n);
    OnesOnly();
    RunLinear(Ones(16), Zeros(16), word, Zeros(n) + Ones(16));
    XorClears(Run(Ones(16), word), ReflectedOf(DLL_GOOD));
  }

  lemma XorClears(c: Register16, d: Register16)
    ensures Xor(c, d) == Zeros(16) <==> c == d
  {
    if Xor(c, d) == Zeros(16) {
      forall i | 0 <= i < 16
        ensures c[i] == d[i]
      {
        assert !Xor(c, d)[i];
      }
    }
  }

  function LowByte(r: Register16): bv16 {
    (if r[0] then 0x1 else 0)
    | (if r[1] then 0x2 else 0)
    | (if r[2] then 0x4 else 0)
    | (if r[3] then 0x8 else 0)
    | (if r[4] then 0x10 else 0)
    | (if r[5] then 0x20 else 0)
    | (if r[6] then 0x40 else 0)
    | (if r[7] then 0x80 else 0)
  }

  function HighByte(r: Register16): bv16 {
    (if r[8] then 0x100 else 0)
    | (if r[9] then 0x200 else 0)
    | (if r[10] then 0x400 else 0)
    | (if r[11] then 0x800 else 0)
    | (if r[12] then 0x1000 else 0)
    | (if r[13] then 0x2000 else 0)
    | (if r[14] then 0x4000 else 0)
    | (if r[15] then 0x8000 else 0)
  }

  lemma LowByteOf(c: bv16)
    ensures LowByte(ReflectedOf(c)) == c & 0xFF
  {
  }

  lemma HighByteOf(c: bv16)
    ensures HighByte(ReflectedOf(c)) == c & 0xFF00
  {
  }

  lemma ReflectedInjective(c: bv16, d: bv16)
    ensures ReflectedOf(c) == ReflectedOf(d) ==> c == d
  {
    LowByteOf(c);
    LowByteOf(d);
    HighByteOf(c);
    HighByteOf(d);
    BytesDetermine(c, d);
  }

  lemma BytesDetermine(c: bv16, d: bv16)
    ensures c & 0xFF == d & 0xFF && c & 0xFF00 == d & 0xFF00 ==> c == d
  {
  }

  method ReflectInBit(crc: bv16, b: bool) returns (next: bv16)
    ensures ReflectedOf(next) == Step(ReflectedOf(crc), b)
  {
    var feedback := b != (crc & 1 == 1);
    next := crc >> 1;
    if feedback {
      next := next ^ DLL_POLY;
    }
    ReflectedStepRefines(crc, b);
  }

  /**
   * The DLL's check runs the reflected register over the whole word and compares it with a
   * constant. It accepts exactly the words that the most-significant-bit-first check accepts.
   */
  method CheckCrc16Reflected(bits: seq<bool>) returns (ok: bool)
    ensures ok == (Run(Ones(16), bits) == ReflectedOf(DLL_GOOD))
    ensures |bits| >= 16 ==> ok == Accepts(bits)
  {
    var crc: bv16 := 0xFFFF;
    AllOnes();
    for i := 0 to |bits|
      invariant ReflectedOf(crc) == Run(Ones(16), bits[..i])
    {
      RunOneMore(Ones(16), bits, i);
      crc := ReflectInBit(crc, bits[i]);
    }
    assert bits[..|bits|] == bits;
    ReflectedInjective(crc, DLL_GOOD);
    if |bits| >= 16 {
      AcceptsIffResidue(bits);
    }
    ok := crc == DLL_GOOD;
  }
}
