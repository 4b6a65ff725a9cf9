/**
 * The rate-1/4 mother code with constraint length 5, its 2/3 puncturing, and the distance
 * properties of the punctured code (ETSI EN 300 392-2 section 8.2.3).
 */
module ConvCode {
  import opened BitSeq
  import opened Trellis

  const G1: nat := 0x13
  const G2: nat := 0x1D
  const G3: nat := 0x17
  const G4: nat := 0x1B

  predicate Bit0(x: nat) { x % 2 == 1 }
  predicate Bit1(x: nat) { (x / 2) % 2 == 1 }
  predicate Bit2(x: nat) { (x / 4) % 2 == 1 }
  predicate Bit3(x: nat) { (x / 8) % 2 == 1 }
  predicate Bit4(x: nat) { (x / 16) % 2 == 1 }

  /** parity5(x & g) for five-bit values. */
  predicate Parity5(x: nat, g: nat) {
    (Bit0(x) && Bit0(g)) != ((Bit1(x) && Bit1(g)) != ((Bit2(x) && Bit2(g)) != ((Bit3(x) && Bit3(g))
    != (Bit4(x) && Bit4(g)))))
  }

  /** The four mother bits that register value sr puts out. */
  function Outputs(sr: nat): (o: seq<bool>)
    ensures |o| == 4
  {
    [Parity5(sr, G1), Parity5(sr, G2), Parity5(sr, G3), Parity5(sr, G4)]
  }

  /** Rate-1/4 mother coding of the bits x from the all-zero register. */
  function Encode(x: seq<bool>): (m: seq<bool>)
    ensures |m| == 4 * |x|
  {
    if |x| == 0 then [] else Encode(x[..|x| - 1]) + Outputs(Register(x))
  }

  /** P_2/3: of each of the first p groups of eight mother bits keep the first, second and fifth. */
  function Puncture(m: seq<bool>, p: nat): (c: seq<bool>)
    requires 8 * p <= |m|
    ensures |c| == 3 * p
  {
    if p == 0 then []
    else
      var n := 8 * p - 8;
      Puncture(m, p - 1) + [m[n], m[n + 1], m[n + 4]]
  }

  /** Inverse of Puncture on p groups: dropped positions are filled with erased. */
  function Depuncture<T>(c: seq<T>, p: nat, erased: T): (m: seq<T>)
    requires 3 * p <= |c|
    ensures |m| == 8 * p
  {
    if p == 0 then []
    else
      var n := 3 * p - 3;
      Depuncture(c, p - 1, erased) + [c[n], c[n + 1], erased, erased, c[n + 2], erased, erased, erased]
  }

  /** The punctured codeword of 2 * p bits. */
  function Codeword(x: seq<bool>, p: nat): (c: seq<bool>)
    requires |x| == 2 * p
    ensures |c| == 3 * p
  {
    Puncture(Encode(x), p)
  }

  /** The bit k places before the newest of x; zero before the start. */
  predicate Tap(x: seq<bool>, k: nat) {
    k < |x| && x[|x| - 1 - k]
  }

  /** The register value with bits a (newest), b, c, d, e (oldest). */
  function Word(a: bool, b: bool, c: bool, d: bool, e: bool): nat {
    BitValue(a) + 2 * BitValue(b) + 4 * BitValue(c) + 8 * BitValue(d) + 16 * BitValue(e)
  }

  /** The register holds the last five bits, newest in the low bit. */
  lemma {:induction false} RegisterHoldsTaps(x: seq<bool>)
    ensures Register(x) == Word(Tap(x, 0), Tap(x, 1), Tap(x, 2), Tap(x, 3), Tap(x, 4))
  {
    if |x| > 0 {
      var y := x[..|x| - 1];
      RegisterHoldsTaps(y);
      WordShift(Tap(x, 0), Tap(y, 0), Tap(y, 1), Tap(y, 2), Tap(y, 3), Tap(y, 4));
    }
  }

  lemma WordShift(b: bool, t0: bool, t1: bool, t2: bool, t3: bool, t4: bool)
    ensures (2 * Word(t0, t1, t2, t3, t4) + BitValue(b)) % 32 == Word(b, t0, t1, t2, t3)
  {
  }

  lemma WordBits(a: bool, b: bool, c: bool, d: bool, e: bool)
    ensures var x := Word(a, b, c, d, e);
            Bit0(x) == a && Bit1(x) == b && Bit2(x) == c && Bit3(x) == d && Bit4(x) == e
  {
    var x := Word(a, b, c, d, e);
    assert x / 2 == BitValue(b) + 2 * BitValue(c) + 4 * BitValue(d) + 8 * BitValue(e);
    assert x / 4 == BitValue(c) + 2 * BitValue(d) + 4 * BitValue(e);
    assert x / 8 == BitValue(d) + 2 * BitValue(e);
    assert x / 16 == BitValue(e);
  }

  /** The generators as taps: G1 = 1+D+D^4, G2 = 1+D^2+D^3+D^4, G3 = 1+D+D^2+D^4, G4 = 1+D+D^3+D^4. */
  function TapOutputs(a: bool, b: bool, c: bool, d: bool, e: bool): (o: seq<bool>)
    ensures |o| == 4
  {
    [(a != b) != e, ((a != c) != d) != e, ((a != b) != c) != e, ((a != b) != d) != e]
  }

  lemma GeneratorBits()
    ensures Bit0(G1) && Bit1(G1) && !Bit2(G1) && !Bit3(G1) && Bit4(G1)
    ensures Bit0(G2) && !Bit1(G2) && Bit2(G2) && Bit3(G2) && Bit4(G2)
    ensures Bit0(G3) && Bit1(G3) && Bit2(G3) && !Bit3(G3) && Bit4(G3)
    ensures Bit0(G4) && Bit1(G4) && !Bit2(G4) && Bit3(G4) && Bit4(G4)
  {
  }

  lemma WordOutputs(a: bool, b: bool, c: bool, d: bool, e: bool)
    ensures Outputs(Word(a, b, c, d, e)) == TapOutputs(a, b, c, d, e)
  {
    WordBits(a, b, c, d, e);
    GeneratorBits();
    var x := Word(a, b, c, d, e);
    assert Parity5(x, G1) == ((a != b) != e);
    assert Parity5(x, G2) == (((a != c) != d) != e);
    assert Parity5(x, G3) == (((a != b) != c) != e);
    assert Parity5(x, G4) == (((a != b) != d) != e);
  }

  lemma OutputsAreTaps(x: seq<bool>)
    ensures Outputs(Register(x)) == TapOutputs(Tap(x, 0), Tap(x, 1), Tap(x, 2), Tap(x, 3), Tap(x, 4))
  {
    var a, b, c, d, e := Tap(x, 0), Tap(x, 1), Tap(x, 2), Tap(x, 3), Tap(x, 4);
    assert Register(x) == Word(a, b, c, d, e) by {
      RegisterHoldsTaps(x);
    }
    WordOutputs(a, b, c, d, e);
  }

  lemma TapOutputsXor(a: bool, b: bool, c: bool, d: bool, e: bool, a': bool, b': bool, c': bool, d': bool, e': bool)
    ensures TapOutputs(a != a', b != b', c != c', d != d', e != e')
            == Xor(TapOutputs(a, b, c, d, e), TapOutputs(a', b', c', d', e'))
  {
  }

  /** The code is linear: the outputs of an exclusive or are the exclusive or of the outputs. */
  lemma OutputsAreLinear(x: seq<bool>, y: seq<bool>)
    requires |x| == |y|
    ensures Outputs(Register(Xor(x, y))) == Xor(Outputs(Register(x)), Outputs(Register(y)))
  {
    var a, b, c, d, e := Tap(x, 0), Tap(x, 1), Tap(x, 2), Tap(x, 3), Tap(x, 4);
    var a', b', c', d', e' := Tap(y, 0), Tap(y, 1), Tap(y, 2), Tap(y, 3), Tap(y, 4);
    OutputsAreTaps(x);
    OutputsAreTaps(y);
    XorTaps(x, y);
    OutputsAreTaps(Xor(x, y));
    TapOutputsXor(a, b, c, d, e, a', b', c', d', e');
  }

  lemma XorTaps(x: seq<bool>, y: seq<bool>)
    requires |x| == |y|
    ensures Tap(Xor(x, y), 0) == (Tap(x, 0) != Tap(y, 0)) && Tap(Xor(x, y), 1) == (Tap(x, 1) != Tap(y, 1))
    ensures Tap(Xor(x, y), 2) == (Tap(x, 2) != Tap(y, 2)) && Tap(Xor(x, y), 3) == (Tap(x, 3) != Tap(y, 3))
    ensures Tap(Xor(x, y), 4) == (Tap(x, 4) != Tap(y, 4))
  {
  }
}
