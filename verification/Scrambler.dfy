/** The cell-identity scrambler of ETSI EN 300 392-2 section 8.2.5: a 32-bit Fibonacci LFSR. */
module Scrambler {
  import opened BitSeq
  import opened BranchMetrics

  /** Taps 32, 26, 23, 22, 16, 12, 11, 10, 8, 7, 5, 4, 2 and 1; tap y is lfsr >> (32 - y). */
  function FeedbackBit(lfsr: bv32): bv32 {
    (lfsr ^ (lfsr >> 6) ^ (lfsr >> 9) ^ (lfsr >> 10) ^ (lfsr >> 16) ^ (lfsr >> 20) ^ (lfsr >> 21) ^ (lfsr >> 22)
     ^ (lfsr >> 24) ^ (lfsr >> 25) ^ (lfsr >> 27) ^ (lfsr >> 28) ^ (lfsr >> 30) ^ (lfsr >> 31)) & 1
  }

  /** The register with a new bit on top. */
  function ShiftedIn(lfsr: bv32, bit: bv32): bv32 {
    (lfsr >> 1) | (bit << 31)
  }

  function NextState(lfsr: bv32): bv32 {
    ShiftedIn(lfsr, FeedbackBit(lfsr))
  }

  /** An all-zero register would stay zero, so it is replaced. */
  function Start(init: bv32): bv32 {
    if init == 0 then 0xFFFFFFFF else init
  }

  function StateAt(lfsr: bv32, n: nat): bv32 {
    if n == 0 then lfsr else NextState(StateAt(lfsr, n - 1))
  }

  /** The first n scrambling bits from register contents lfsr. */
  function Keystream(lfsr: bv32, n: nat): (k: seq<bool>)
    ensures |k| == n
  {
    if n == 0 then [] else Keystream(lfsr, n - 1) + [FeedbackBit(StateAt(lfsr, n - 1)) == 1]
  }

  /** MCC(10) | MNC(14) | CC(6) | 11; the slot number takes no part. */
  function CellInit(mcc: bv16, mnc: bv16, colourCode: bv8): bv32 {
    ((mcc & 0x3FF) as bv32 << 22) | ((mnc & 0x3FFF) as bv32 << 8) | ((colourCode & 0x3F) as bv32 << 2) | 3
  }

  function Scrambled(bits: seq<bool>, init: bv32): (r: seq<bool>)
    ensures |r| == |bits|
  {
    Xor(bits, Keystream(Start(init), |bits|))
  }

  /** Soft values change sign where the scrambling bit is 1. */
  function SoftScrambled(soft: seq<int>, init: bv32): (r: seq<int>)
    ensures |r| == |soft|
  {
    var k := Keystream(Start(init), |soft|);
    seq(|soft|, i requires 0 <= i < |soft| => if k[i] then -soft[i] else soft[i])
  }

  /** Scrambling twice with the same cell identity restores the bits. */
  lemma ScrambleTwice(bits: seq<bool>, init: bv32)
    ensures Scrambled(Scrambled(bits, init), init) == bits
  {
  }

  /** Scrambling keeps the distance between two blocks. */
  lemma ScrambledDistance(a: seq<bool>, b: seq<bool>, init: bv32)
    requires |a| == |b|
    ensures Distance(Scrambled(a, init), Scrambled(b, init)) == Distance(a, b)
  {
    DistanceCounts(a, b);
    DistanceCounts(Scrambled(a, init), Scrambled(b, init));
    assert Differences(Scrambled(a, init), Scrambled(b, init)) == Differences(a, b);
  }

  lemma SoftScrambledBits(y: seq<bool>, init: bv32, c: int)
    ensures SoftScrambled(SoftBits(y, c), init) == SoftBits(Scrambled(y, init), c)
  {
  }

  // ---- The loops ----

  /** The next scrambling bit and register contents. */
  method NextLfsrBit(lfsr: bv32) returns (bit: bv32, next: bv32)
    ensures bit == FeedbackBit(lfsr) && next == NextState(lfsr)
  {
    bit := ((lfsr >> 0) ^ (lfsr >> 6) ^ (lfsr >> 9) ^ (lfsr >> 10) ^ (lfsr >> 16) ^ (lfsr >> 20) ^ (lfsr >> 21) ^ (lfsr >> 22)
            ^ (lfsr >> 24) ^ (lfsr >> 25) ^ (lfsr >> 27) ^ (lfsr >> 28) ^ (lfsr >> 30) ^ (lfsr >> 31)) & 1;
    next := (lfsr >> 1) | (bit << 31);
  }

  method Scramble(input: seq<bool>, init: bv32, out: array<bool>)
    requires out.Length == |input|
    modifies out
    ensures out[..] == Scrambled(input, init)
  {
    var lfsr := init;
    if lfsr == 0 {
      lfsr := 0xFFFFFFFF;
    }
    ghost var start := Start(init);
    ghost var key := Keystream(start, |input|);
    for i := 0 to |input|
      invariant lfsr == StateAt(start, i)
      invariant forall j :: 0 <= j < i ==> out[j] == (input[j] != key[j])
    {
      var bit;
      bit, lfsr := NextLfsrBit(lfsr);
      KeystreamAt(start, |input|, i);
      out[i] := input[i] != (bit == 1);
    }
  }

  method ScrambleSoft(input: seq<int>, init: bv32, out: array<int>)
    requires out.Length == |input|
    modifies out
    ensures out[..] == SoftScrambled(input, init)
  {
    var lfsr := init;
    if lfsr == 0 {
      lfsr := 0xFFFFFFFF;
    }
    ghost var start := Start(init);
    ghost var key := Keystream(start, |input|);
    for i := 0 to |input|
      invariant lfsr == StateAt(start, i)
      invariant forall j :: 0 <= j < i ==> out[j] == if key[j] then -input[j] else input[j]
    {
      var bit;
      bit, lfsr := NextLfsrBit(lfsr);
      KeystreamAt(start, |input|, i);
      out[i] := if bit == 1 then -input[i] else input[i];
    }
  }

  lemma {:induction false} KeystreamAt(lfsr: bv32, n: nat, i: nat)
    requires i < n
    ensures Keystream(lfsr, n)[i] == (FeedbackBit(StateAt(lfsr, i)) == 1)
  {
    if i < n - 1 {
      KeystreamAt(lfsr, n - 1, i);
    }
  }

  // ---- The keystream as a linear recurrence ----

  /** Bit i of a register, the lowest one first. */
  function RegisterBit(x: bv32, i: nat): bv1
    requires i < 32
  {
    match i
    case 0 => (x & 1) as bv1
    case 1 => ((x >> 1) & 1) as bv1
    case 2 => ((x >> 2) & 1) as bv1
    case 3 => ((x >> 3) & 1) as bv1
    case 4 => ((x >> 4) & 1) as bv1
    case 5 => ((x >> 5) & 1) as bv1
    case 6 => ((x >> 6) & 1) as bv1
    case 7 => ((x >> 7) & 1) as bv1
    case 8 => ((x >> 8) & 1) as bv1
    case 9 => ((x >> 9) & 1) as bv1
    case 10 => ((x >> 10) & 1) as bv1
    case 11 => ((x >> 11) & 1) as bv1
    case 12 => ((x >> 12) & 1) as bv1
    case 13 => ((x >> 13) & 1) as bv1
    case 14 => ((x >> 14) & 1) as bv1
    case 15 => ((x >> 15) & 1) as bv1
    case 16 => ((x >> 16) & 1) as bv1
    case 17 => ((x >> 17) & 1) as bv1
    case 18 => ((x >> 18) & 1) as bv1
    case 19 => ((x >> 19) & 1) as bv1
    case 20 => ((x >> 20) & 1) as bv1
    case 21 => ((x >> 21) & 1) as bv1
    case 22 => ((x >> 22) & 1) as bv1
    case 23 => ((x >> 23) & 1) as bv1
    case 24 => ((x >> 24) & 1) as bv1
    case 25 => ((x >> 25) & 1) as bv1
    case 26 => ((x >> 26) & 1) as bv1
    case 27 => ((x >> 27) & 1) as bv1
    case 28 => ((x >> 28) & 1) as bv1
    case 29 => ((x >> 29) & 1) as bv1
    case 30 => ((x >> 30) & 1) as bv1
    case _ => ((x >> 31) & 1) as bv1
  }

  /** The bits of a register, the lowest one first. */
  ghost predicate HasBits(x: bv32, t: seq<bool>) {
    |t| == 32 && forall i: nat :: i < 32 ==> t[i] == (RegisterBit(x, i) == 1)
  }

  lemma Taps0(x: bv32, t: seq<bool>)
    requires HasBits(x, t)
    ensures ((x ^ (x >> 6) ^ (x >> 9) ^ (x >> 10)) & 1 == 1) == (((t[0] != t[6]) != t[9]) != t[10])
  {
    assert t[0] == (RegisterBit(x, 0) == 1) && t[6] == (RegisterBit(x, 6) == 1)
           && t[9] == (RegisterBit(x, 9) == 1) && t[10] == (RegisterBit(x, 10) == 1);
  }

  lemma Taps1(x: bv32, t: seq<bool>)
    requires HasBits(x, t)
    ensures (((x >> 16) ^ (x >> 20) ^ (x >> 21) ^ (x >> 22)) & 1 == 1) == (((t[16] != t[20]) != t[21]) != t[22])
  {
    assert t[16] == (RegisterBit(x, 16) == 1) && t[20] == (RegisterBit(x, 20) == 1)
           && t[21] == (RegisterBit(x, 21) == 1) && t[22] == (RegisterBit(x, 22) == 1);
  }

  lemma Taps2(x: bv32, t: seq<bool>)
    requires HasBits(x, t)
    ensures (((x >> 24) ^ (x >> 25) ^ (x >> 27) ^ (x >> 28)) & 1 == 1) == (((t[24] != t[25]) != t[27]) != t[28])
  {
    assert t[24] == (RegisterBit(x, 24) == 1) && t[25] == (RegisterBit(x, 25) == 1)
           && t[27] == (RegisterBit(x, 27) == 1) && t[28] == (RegisterBit(x, 28) == 1);
  }

  lemma Taps3(x: bv32, t: seq<bool>)
    requires HasBits(x, t)
    ensures (((x >> 30) ^ (x >> 31)) & 1 == 1) == (t[30] != t[31])
  {
    assert t[30] == (RegisterBit(x, 30) == 1) && t[31] == (RegisterBit(x, 31) == 1);
  }

  lemma FeedbackGroups(x: bv32)
    ensures (FeedbackBit(x) == 1)
            == ((((x ^ (x >> 6) ^ (x >> 9) ^ (x >> 10)) & 1 == 1) != (((x >> 16) ^ (x >> 20) ^ (x >> 21) ^ (x >> 22)) & 1 == 1))
                != ((((x >> 24) ^ (x >> 25) ^ (x >> 27) ^ (x >> 28)) & 1 == 1) != (((x >> 30) ^ (x >> 31)) & 1 == 1)))
  {
  }

  /** The feedback is the exclusive or of the register's bits at the taps. */
  lemma FeedbackBits(x: bv32, t: seq<bool>)
    requires HasBits(x, t)
    ensures (FeedbackBit(x) == 1) == TapsXor(t)
  {
    Taps0(x, t);
    Taps1(x, t);
    Taps2(x, t);
    Taps3(x, t);
    FeedbackGroups(x);
  }

  predicate TapsXor(t: seq<bool>)
    requires |t| == 32
  {
    ((((t[0] != t[6]) != t[9]) != t[10]) != (((t[16] != t[20]) != t[21]) != t[22]))
    != ((((t[24] != t[25]) != t[27]) != t[28]) != (t[30] != t[31]))
  }

  /** A step moves every bit one place down and puts the feedback on top. */
  lemma ShiftedByte0(x: bv32, y: bv32, f: bv32, i: nat)
    requires f <= 1 && i < 8 && y == ShiftedIn(x, f)
    ensures RegisterBit(y, i) == RegisterBit(x, i + 1)
  {
    match i
    case 0 => case 1 => case 2 => case 3 => case 4 => case 5 => case 6 => case _ =>
  }

  lemma ShiftedByte1(x: bv32, y: bv32, f: bv32, i: nat)
    requires f <= 1 && 8 <= i < 16 && y == ShiftedIn(x, f)
    ensures RegisterBit(y, i) == RegisterBit(x, i + 1)
  {
    match i
    case 8 => case 9 => case 10 => case 11 => case 12 => case 13 => case 14 => case _ =>
  }

  lemma ShiftedByte2(x: bv32, y: bv32, f: bv32, i: nat)
    requires f <= 1 && 16 <= i < 24 && y == ShiftedIn(x, f)
    ensures RegisterBit(y, i) == RegisterBit(x, i + 1)
  {
    match i
    case 16 => case 17 => case 18 => case 19 => case 20 => case 21 => case 22 => case _ =>
  }

  lemma ShiftedByte3(x: bv32, y: bv32, f: bv32, i: nat)
    requires f <= 1 && 24 <= i < 32 && y == ShiftedIn(x, f)
    ensures RegisterBit(y, i) == if i < 31 then RegisterBit(x, i + 1) else f as bv1
  {
    match i
    case 24 => case 25 => case 26 => case 27 => case 28 => case 29 => case 30 => case _ =>
  }

  lemma ShiftedBit(x: bv32, y: bv32, f: bv32, i: nat)
    requires f <= 1 && i < 32 && y == ShiftedIn(x, f)
    ensures RegisterBit(y, i) == if i < 31 then RegisterBit(x, i + 1) else f as bv1
  {
    if i < 8 {
      ShiftedByte0(x, y, f, i);
    } else if i < 16 {
      ShiftedByte1(x, y, f, i);
    } else if i < 24 {
      ShiftedByte2(x, y, f, i);
    } else {
      ShiftedByte3(x, y, f, i);
    }
  }

  /** The 32 bits that the register starts from, lowest first, and then n scrambling bits. */
  function Stream(init: bv32, n: nat): (e: seq<bool>)
    ensures |e| == 32 + n
  {
    seq(32, i requires 0 <= i < 32 => init == 0 || RegisterBit(init, i) == 1) + Keystream(Start(init), n)
  }

  lemma AllOnes(i: nat)
    requires i < 32
    ensures RegisterBit(0xFFFF_FFFF, i) == 1
  {
  }

  /** The register holds a window of 32 bits of the stream. */
  lemma {:induction false} StateIsWindow(init: bv32, n: nat, k: nat, b: nat)
    requires k <= n && b < 32
    ensures (RegisterBit(StateAt(Start(init), k), b) == 1) == Stream(init, n)[k + b]
    decreases k
  {
    if k == 0 {
      AllOnes(b);
    } else {
      var x := StateAt(Start(init), k - 1);
      NextWindow(init, n, k - 1, b, x, StateAt(Start(init), k), FeedbackBit(x));
      if b < 31 {
        StateIsWindow(init, n, k - 1, b + 1);
      }
    }
  }

  lemma NextWindow(init: bv32, n: nat, k: nat, b: nat, x: bv32, y: bv32, f: bv32)
    requires k < n && b < 32 && x == StateAt(Start(init), k) && f == FeedbackBit(x) && y == NextState(x)
    ensures b < 31 ==> RegisterBit(y, b) == RegisterBit(x, b + 1)
    ensures b == 31 ==> (RegisterBit(y, b) == 1) == Stream(init, n)[k + 32]
  {
    FeedbackFits(x, y, f);
    ShiftedBit(x, y, f, b);
    KeystreamAt(Start(init), n, k);
  }

  lemma FeedbackFits(x: bv32, y: bv32, f: bv32)
    requires f == FeedbackBit(x) && y == NextState(x)
    ensures f <= 1 && y == ShiftedIn(x, f) && (f as bv1 == 1) == (f == 1)
  {
    OneBit(x, f);
  }

  lemma OneBit(x: bv32, f: bv32)
    requires f == FeedbackBit(x)
    ensures f <= 1 && (f as bv1 == 1) == (f == 1)
  {
    SmallBit(f);
  }

  lemma SmallBit(f: bv32)
    requires f <= 1
    ensures (f as bv1 == 1) == (f == 1)
  {
  }

  /** Bit m is the exclusive or of those at the given distances before it. */
  predicate Recurs(e: seq<bool>, m: nat)
    requires 32 <= m < |e|
  {
    e[m] == ((((e[m - 1] != e[m - 2]) != (e[m - 4] != e[m - 5])) != ((e[m - 7] != e[m - 8]) != (e[m - 10] != e[m - 11])))
             != (((e[m - 12] != e[m - 16]) != (e[m - 22] != e[m - 23])) != (e[m - 26] != e[m - 32])))
  }

  /**
   * From bit 32 on the stream follows the recurrence of the scrambling polynomial, whose start is
   * the cell identity's register, or all ones for a zero register.
   */
  lemma KeystreamRecurs(init: bv32, n: nat, m: nat)
    requires 32 <= m < 32 + n
    ensures Recurs(Stream(init, n), m)
  {
    var k := m - 32;
    var x, t := StateAt(Start(init), k), Stream(init, n)[k..m];
    forall i: nat | i < 32
      ensures t[i] == (RegisterBit(x, i) == 1)
    {
      StateIsWindow(init, n, k, i);
    }
    KeystreamAt(Start(init), n, k);
    FeedbackBits(x, t);
    TapsRecur(t, Stream(init, n), k, m);
  }

  lemma TapsRecur(t: seq<bool>, e: seq<bool>, k: nat, m: nat)
    requires m == k + 32 < |e| && t == e[k..m] && e[m] == TapsXor(t)
    ensures Recurs(e, m)
  {
    forall i: nat | i < 32
      ensures t[i] == e[m - (32 - i)]
    {
    }
  }

  /** Scrambling inverts a bit where the stream behind the first 32 bits is 1. */
  lemma ScrambledBit(bits: seq<bool>, init: bv32, i: nat)
    requires i < |bits|
    ensures Scrambled(bits, init)[i] == (bits[i] != Stream(init, |bits|)[32 + i])
  {
  }

  // ---- The cell identity ----

  /** The three fields stand side by side above two ones, so no cell has a zero register. */
  lemma CellFields(mcc: bv16, mnc: bv16, colourCode: bv8)
    ensures var x := CellInit(mcc, mnc, colourCode);
            && (x >> 22) as bv16 == mcc & 0x3FF && ((x >> 8) & 0x3FFF) as bv16 == mnc & 0x3FFF
            && ((x >> 2) & 0x3F) as bv8 == colourCode & 0x3F && x & 3 == 3 && Start(x) == x
  {
  }
}
