/** The speech check rejects every error of up to three bits: powers of X modulo 1 + X^3 + X^7 differ. */
module SpeechCrcDistance {
  import opened BitSeq
  import opened SpeechCrc

  const PLACES: nat := 67

  /** Multiplication by X modulo 1 + X^3 + X^7, coefficient i in bit i. */
  function TimesX(c: bv8): bv8 {
    ((c << 1) & 0x7F) ^ (if c & 0x40 != 0 then 9 else 0)
  }

  /** X to the power k. */
  function Power(k: nat): bv8
    requires k < PLACES
  {
    match k / 12
    case 0 => (match k % 12 case 0 => 1 case 1 => 2 case 2 => 4 case 3 => 8 case 4 => 16 case 5 => 32
        case 6 => 64 case 7 => 9 case 8 => 18 case 9 => 36 case 10 => 72 case _ => 25)
    case 1 => (match k % 12 case 0 => 50 case 1 => 100 case 2 => 65 case 3 => 11 case 4 => 22 case 5 => 44
        case 6 => 88 case 7 => 57 case 8 => 114 case 9 => 109 case 10 => 83 case _ => 47)
    case 2 => (match k % 12 case 0 => 94 case 1 => 53 case 2 => 106 case 3 => 93 case 4 => 51 case 5 => 102
        case 6 => 69 case 7 => 3 case 8 => 6 case 9 => 12 case 10 => 24 case _ => 48)
    case 3 => (match k % 12 case 0 => 96 case 1 => 73 case 2 => 27 case 3 => 54 case 4 => 108 case 5 => 81
        case 6 => 43 case 7 => 86 case 8 => 37 case 9 => 74 case 10 => 29 case _ => 58)
    case 4 => (match k % 12 case 0 => 116 case 1 => 97 case 2 => 75 case 3 => 31 case 4 => 62 case 5 => 124
        case 6 => 113 case 7 => 107 case 8 => 95 case 9 => 55 case 10 => 110 case _ => 85)
    case _ => (match k % 12 case 0 => 35 case 1 => 70 case 2 => 5 case 3 => 10 case 4 => 20 case 5 => 40 case _ => 80)
  }

  lemma PowerStepAt(q: nat, c: nat)
    requires c < 12 && 12 * q + c < PLACES - 1
    ensures Power(12 * q + c + 1) == TimesX(Power(12 * q + c))
  {
    match q {
      case 0 => RowStep0(c);
      case 1 => RowStep1(c);
      case 2 => RowStep2(c);
      case 3 => RowStep3(c);
      case 4 => RowStep4(c);
      case _ => RowStep5(c);
    }
  }

  lemma RowStep0(c: nat)
    requires c < 12
    ensures Power(1 + c) == TimesX(Power(0 + c))
  {
    match c {
      case 0 => case 1 => case 2 => case 3 => case 4 => case 5 => case 6 => case 7 => case 8 => case 9 =>
      case 10 => case _ =>
    }
  }

  lemma RowStep1(c: nat)
    requires c < 12
    ensures Power(13 + c) == TimesX(Power(12 + c))
  {
    match c {
      case 0 => case 1 => case 2 => case 3 => case 4 => case 5 => case 6 => case 7 => case 8 => case 9 =>
      case 10 => case _ =>
    }
  }

  lemma RowStep2(c: nat)
    requires c < 12
    ensures Power(25 + c) == TimesX(Power(24 + c))
  {
    match c {
      case 0 => case 1 => case 2 => case 3 => case 4 => case 5 => case 6 => case 7 => case 8 => case 9 =>
      case 10 => case _ =>
    }
  }

  lemma RowStep3(c: nat)
    requires c < 12
    ensures Power(37 + c) == TimesX(Power(36 + c))
  {
    match c {
      case 0 => case 1 => case 2 => case 3 => case 4 => case 5 => case 6 => case 7 => case 8 => case 9 =>
      case 10 => case _ =>
    }
  }

  lemma RowStep4(c: nat)
    requires c < 12
    ensures Power(49 + c) == TimesX(Power(48 + c))
  {
    match c {
      case 0 => case 1 => case 2 => case 3 => case 4 => case 5 => case 6 => case 7 => case 8 => case 9 =>
      case 10 => case _ =>
    }
  }

  lemma RowStep5(c: nat)
    requires c < 6
    ensures Power(61 + c) == TimesX(Power(60 + c))
  {
    match c {
      case 0 => case 1 => case 2 => case 3 => case 4 => case _ =>
    }
  }

  lemma PowerStep(k: nat, n: nat)
    requires n == k + 1 < PLACES
    ensures Power(n) == TimesX(Power(k))
  {
    PowerStepAt(k / 12, k % 12);
  }

  lemma PowerNotOne(k: nat)
    requires 0 < k < PLACES
    ensures Power(k) != 1
  {
  }

  /** X^7 = X^3 + 1. */
  lemma SeventhPower(c: bv8)
    requires c & 0x80 == 0
    ensures TimesX(TimesX(TimesX(TimesX(TimesX(TimesX(TimesX(c))))))) == TimesX(TimesX(TimesX(c))) ^ c
  {
  }

  lemma TimesXInjective(c: bv8, d: bv8)
    requires c & 0x80 == 0 && d & 0x80 == 0 && TimesX(c) == TimesX(d)
    ensures c == d
  {
  }

  lemma PowerBelow(k: nat)
    requires k < PLACES
    ensures Power(k) & 0x80 == 0 && Power(k) != 0
  {
  }

  // ---- The list of powers ----

  predicate NextIsTimesX(p: seq<bv8>, k: nat) {
    k + 1 < |p| && p[k + 1] == TimesX(p[k])
  }

  /** p lists the powers of X, none of which returns to 1. */
  ghost predicate ArePowers(p: seq<bv8>) {
    && |p| == PLACES && p[0] == 1
    && (forall k: nat :: k < PLACES - 1 ==> NextIsTimesX(p, k))
    && (forall k :: 0 <= k < PLACES ==> p[k] & 0x80 == 0)
    && (forall k :: 0 < k < PLACES ==> p[k] != 1)
    && (forall k :: 0 <= k < PLACES ==> p[k] != 0)
  }

  ghost function Powers(): (p: seq<bv8>)
    ensures ArePowers(p)
  {
    var p := seq(PLACES, k requires 0 <= k < PLACES => Power(k));
    assert ArePowers(p) by {
      ListIsPowers(p);
    }
    p
  }

  lemma ListIsPowers(p: seq<bv8>)
    requires |p| == PLACES && forall k :: 0 <= k < PLACES ==> p[k] == Power(k)
    ensures ArePowers(p)
  {
    forall k: nat | k < PLACES - 1
      ensures NextIsTimesX(p, k)
    {
      PowerStep(k, k + 1);
    }
    forall k | 0 <= k < PLACES
      ensures p[k] & 0x80 == 0 && p[k] != 0 && (k > 0 ==> p[k] != 1)
    {
      PowerBelow(k);
      if k > 0 {
        PowerNotOne(k);
      }
    }
  }

  lemma PowerRecurrence(p: seq<bv8>, k: nat)
    requires ArePowers(p) && 7 <= k < PLACES
    ensures p[k] == p[k - 4] ^ p[k - 7]
  {
    assert NextIsTimesX(p, k - 7) && NextIsTimesX(p, k - 6) && NextIsTimesX(p, k - 5) && NextIsTimesX(p, k - 4);
    assert NextIsTimesX(p, k - 3) && NextIsTimesX(p, k - 2) && NextIsTimesX(p, k - 1);
    SeventhPower(p[k - 7]);
  }

  /** Different places have different powers. */
  lemma {:induction false} PowersDiffer(p: seq<bv8>, a: nat, b: nat)
    requires ArePowers(p) && a < b < PLACES
    ensures p[a] != p[b]
    decreases a
  {
    if a > 0 {
      PowersDiffer(p, a - 1, b - 1);
      assert NextIsTimesX(p, a - 1) && NextIsTimesX(p, b - 1);
      if p[a] == p[b] {
        TimesXInjective(p[a - 1], p[b - 1]);
      }
    }
  }

  // ---- Remainders of single bits ----

  /** Bit i of c. */
  predicate BitAt(c: bv8, i: nat)
    requires i < 7
  {
    match i
    case 0 => c & 1 != 0
    case 1 => c & 2 != 0
    case 2 => c & 4 != 0
    case 3 => c & 8 != 0
    case 4 => c & 16 != 0
    case 5 => c & 32 != 0
    case _ => c & 64 != 0
  }

  function SevenBits(c: bv8): (s: seq<bool>)
    ensures |s| == 7
  {
    seq(7, i requires 0 <= i < 7 => BitAt(c, i))
  }

  lemma SevenBitsXor(c: bv8, d: bv8)
    ensures SevenBits(c ^ d) == Xor(SevenBits(c), SevenBits(d))
  {
    forall i | 0 <= i < 7
      ensures BitAt(c ^ d, i) == (BitAt(c, i) != BitAt(d, i))
    {
      BitAtXor(c, d, i);
    }
  }

  lemma BitAtXor(c: bv8, d: bv8, i: nat)
    requires i < 7
    ensures BitAt(c ^ d, i) == (BitAt(c, i) != BitAt(d, i))
  {
    XorMasks(c, d);
    match i {
      case 0 => case 1 => case 2 => case 3 => case 4 => case 5 => case _ =>
    }
  }

  lemma XorMasks(c: bv8, d: bv8)
    ensures ((c ^ d) & 1 != 0) == ((c & 1 != 0) != (d & 1 != 0)) && ((c ^ d) & 2 != 0) == ((c & 2 != 0) != (d & 2 != 0))
    ensures ((c ^ d) & 4 != 0) == ((c & 4 != 0) != (d & 4 != 0)) && ((c ^ d) & 8 != 0) == ((c & 8 != 0) != (d & 8 != 0))
    ensures ((c ^ d) & 16 != 0) == ((c & 16 != 0) != (d & 16 != 0))
    ensures ((c ^ d) & 32 != 0) == ((c & 32 != 0) != (d & 32 != 0))
    ensures ((c ^ d) & 64 != 0) == ((c & 64 != 0) != (d & 64 != 0))
  {
  }

  lemma SevenBitsInjective(c: bv8, d: bv8)
    requires SevenBits(c) == SevenBits(d) && c & 0x80 == 0 && d & 0x80 == 0
    ensures c == d
  {
    var s, t := SevenBits(c), SevenBits(d);
    assert BitAt(c, 0) == s[0] == t[0] == BitAt(d, 0) && BitAt(c, 1) == s[1] == t[1] == BitAt(d, 1);
    assert BitAt(c, 2) == s[2] == t[2] == BitAt(d, 2) && BitAt(c, 3) == s[3] == t[3] == BitAt(d, 3);
    assert BitAt(c, 4) == s[4] == t[4] == BitAt(d, 4) && BitAt(c, 5) == s[5] == t[5] == BitAt(d, 5);
    assert BitAt(c, 6) == s[6] == t[6] == BitAt(d, 6);
    MasksDetermine(c, d);
  }

  lemma MasksDetermine(c: bv8, d: bv8)
    requires (c & 1 != 0) == (d & 1 != 0) && (c & 2 != 0) == (d & 2 != 0) && (c & 4 != 0) == (d & 4 != 0)
    requires (c & 8 != 0) == (d & 8 != 0) && (c & 16 != 0) == (d & 16 != 0) && (c & 32 != 0) == (d & 32 != 0)
    requires (c & 64 != 0) == (d & 64 != 0) && c & 0x80 == 0 && d & 0x80 == 0
    ensures c == d
  {
  }

  /** n bits with a single 1 at place k. */
  function Unit(n: nat, k: nat): (s: seq<bool>)
    requires k < n
    ensures |s| == n
  {
    seq(n, i requires 0 <= i < n => i == k)
  }

  /** No 1 at place d or above. */
  predicate Below(w: seq<bool>, d: nat) {
    forall j :: d <= j < |w| ==> !w[j]
  }

  lemma {:induction false} NothingToDivide(w: seq<bool>, d: nat)
    requires 7 <= d <= |w| && Below(w, d)
    ensures Divided(w, d) == w
    decreases |w| - d
  {
    if d < |w| {
      NothingToDivide(w, d + 1);
    }
  }

  lemma {:induction false} SameFromThere(w: seq<bool>, v: seq<bool>, k: nat, d: nat)
    requires 7 <= d <= k <= |w| == |v| && Divided(w, k) == Divided(v, k)
    ensures Divided(w, d) == Divided(v, d)
    decreases k - d
  {
    if d < k {
      SameFromThere(w, v, k, d + 1);
    }
  }

  lemma ReducedUnit(k: nat)
    requires 7 <= k < PLACES
    ensures Divided(Unit(PLACES, k), 7) == Xor(Divided(Unit(PLACES, k - 4), 7), Divided(Unit(PLACES, k - 7), 7))
  {
    var w, a, b := Unit(PLACES, k), Unit(PLACES, k - 4), Unit(PLACES, k - 7);
    var v := Xor(a, b);
    NothingToDivide(w, k + 1);
    assert Reduce(w, k) == v;
    NothingToDivide(v, k);
    SameFromThere(w, v, k, 7);
    DividedXor(a, b, 7);
  }

  lemma LowUnit(p: seq<bv8>, k: nat)
    requires ArePowers(p) && k < 7
    ensures SevenBits(p[k]) == Unit(PLACES, k)[..7]
  {
    assert NextIsTimesX(p, 0) && NextIsTimesX(p, 1) && NextIsTimesX(p, 2);
    assert NextIsTimesX(p, 3) && NextIsTimesX(p, 4) && NextIsTimesX(p, 5);
  }

  /** The remainder of the k-th power is its coefficient list. */
  lemma {:induction false} UnitRemainder(p: seq<bv8>, k: nat)
    requires ArePowers(p) && k < PLACES
    ensures Divided(Unit(PLACES, k), 7)[..7] == SevenBits(p[k])
  {
    if k < 7 {
      NothingToDivide(Unit(PLACES, k), 7);
      LowUnit(p, k);
    } else {
      UnitRemainder(p, k - 4);
      UnitRemainder(p, k - 7);
      ReducedUnit(k);
      PowerRecurrence(p, k);
      SevenBitsXor(p[k - 4], p[k - 7]);
    }
  }

  /** Remainders of different single bits differ, and none is zero. */
  lemma UnitRemaindersDiffer(a: nat, b: nat)
    requires a < b < PLACES
    ensures Divided(Unit(PLACES, a), 7)[..7] != Divided(Unit(PLACES, b), 7)[..7]
  {
    var p := Powers();
    UnitRemainder(p, a);
    UnitRemainder(p, b);
    PowersDiffer(p, a, b);
    if SevenBits(p[a]) == SevenBits(p[b]) {
      SevenBitsInjective(p[a], p[b]);
    }
  }

  lemma UnitRemainderNotZero(a: nat)
    requires a < PLACES
    ensures Divided(Unit(PLACES, a), 7)[..7] != Zeros(7)
  {
    var p := Powers();
    UnitRemainder(p, a);
    if SevenBits(p[a]) == Zeros(7) {
      SevenBitsOfZero();
      SevenBitsInjective(p[a], 0);
    }
  }

  lemma SevenBitsOfZero()
    ensures SevenBits(0) == Zeros(7)
  {
    forall i | 0 <= i < 7
      ensures !BitAt(0, i)
    {
    }
  }

  // ---- Errors of two bits ----

  const WORD_BITS: nat := 68

  /** The word as a polynomial: check bits in the low places, data above. */
  function Polynomial(word: seq<bool>): (w: seq<bool>)
    requires |word| == WORD_BITS
    ensures |w| == PLACES
  {
    word[DATA_BITS..PLACES] + word[..DATA_BITS]
  }

  /** An accepted word is a multiple of the generator. */
  lemma AcceptedDivides(word: seq<bool>)
    requires |word| == WORD_BITS && Accepts(word)
    ensures Divided(Polynomial(word), 7)[..7] == Zeros(7)
  {
    var data, c := word[..DATA_BITS], word[DATA_BITS..PLACES];
    var high, low := Zeros(7) + data, c + Zeros(DATA_BITS);
    RemainderIsChecked(word);
    assert Polynomial(word) == Xor(high, low);
    DividedXor(high, low, 7);
    NothingToDivide(low, 7);
    assert low[..7] == c;
    assert Xor(c, c) == Zeros(7);
  }

  lemma RemainderIsChecked(word: seq<bool>)
    requires |word| == WORD_BITS && Accepts(word)
    ensures Remainder(word[..DATA_BITS]) == word[DATA_BITS..PLACES]
  {
    var data, c := word[..DATA_BITS], word[DATA_BITS..];
    assert CheckBits(data) == c;
    assert CheckBits(data)[..7] == Remainder(data);
    assert c[..7] == word[DATA_BITS..PLACES];
  }

  /** Place of position k of a word in its polynomial. */
  function PlaceOf(k: nat): (p: nat)
    requires k < PLACES
    ensures p < PLACES
  {
    if k < DATA_BITS then k + 7 else k - DATA_BITS
  }

  lemma OneBitPolynomial(k: nat)
    requires k < PLACES
    ensures Polynomial(Unit(WORD_BITS, k)) == Unit(PLACES, PlaceOf(k))
  {
  }

  lemma ParityBitPolynomial()
    ensures Polynomial(Unit(WORD_BITS, PLACES)) == Zeros(PLACES)
  {
  }

  lemma PolynomialXor(a: seq<bool>, b: seq<bool>)
    requires |a| == |b| == WORD_BITS
    ensures Polynomial(Xor(a, b)) == Xor(Polynomial(a), Polynomial(b))
  {
  }

  lemma DifferentSum(s: seq<bool>, t: seq<bool>)
    requires |s| == |t| && s != t
    ensures Xor(s, t) != Zeros(|s|)
  {
    var i :| 0 <= i < |s| && s[i] != t[i];
    assert Xor(s, t)[i];
  }

  /** Two ones never make a multiple of the generator. */
  lemma TwoOnesRemainder(a: nat, b: nat)
    requires a < b < WORD_BITS
    ensures Divided(Polynomial(Xor(Unit(WORD_BITS, a), Unit(WORD_BITS, b))), 7)[..7] != Zeros(7)
  {
    var u, v := Unit(WORD_BITS, a), Unit(WORD_BITS, b);
    var s, t := Divided(Polynomial(u), 7)[..7], Divided(Polynomial(v), 7)[..7];
    PolynomialXor(u, v);
    DividedXor(Polynomial(u), Polynomial(v), 7);
    assert Xor(Divided(Polynomial(u), 7), Divided(Polynomial(v), 7))[..7] == Xor(s, t);
    OneBitPolynomial(a);
    if b == PLACES {
      ParityBitPolynomial();
      NothingToDivide(Zeros(PLACES), 7);
      UnitRemainderNotZero(PlaceOf(a));
      SumWithZero(s, t);
    } else {
      OneBitPolynomial(b);
      UnitsApart(PlaceOf(a), PlaceOf(b));
      DifferentSum(s, t);
    }
  }

  /** No word with exactly two ones is accepted. */
  lemma TwoOnesRejected(a: nat, b: nat)
    requires a < b < WORD_BITS
    ensures !Accepts(Xor(Unit(WORD_BITS, a), Unit(WORD_BITS, b)))
  {
    TwoOnesRemainder(a, b);
    if Accepts(Xor(Unit(WORD_BITS, a), Unit(WORD_BITS, b))) {
      AcceptedDivides(Xor(Unit(WORD_BITS, a), Unit(WORD_BITS, b)));
    }
  }

  lemma SumWithZero(s: seq<bool>, z: seq<bool>)
    requires |s| == |z| && z == Zeros(|s|)
    ensures Xor(s, z) == s
  {
  }

  lemma UnitsApart(a: nat, b: nat)
    requires a < PLACES && b < PLACES && a != b
    ensures Divided(Unit(PLACES, a), 7)[..7] != Divided(Unit(PLACES, b), 7)[..7]
  {
    if a < b {
      UnitRemaindersDiffer(a, b);
    } else {
      UnitRemaindersDiffer(b, a);
    }
  }

  lemma TwoDifferences(word: seq<bool>, other: seq<bool>) returns (a: nat, b: nat)
    requires |word| == |other| == WORD_BITS && Distance(word, other) == 2
    ensures a < b < WORD_BITS && Xor(word, other) == Xor(Unit(WORD_BITS, a), Unit(WORD_BITS, b))
  {
    DistanceCounts(word, other);
    var d := Differences(word, other);
    var x :| x in d;
    assert |d - {x}| == 1;
    var y :| y in d - {x};
    assert |d - {x} - {y}| == 0;
    assert d == {x, y} by {
      assert d - {x} - {y} == {};
    }
    a, b := if x < y then x else y, if x < y then y else x;
    var e, t := Xor(word, other), Xor(Unit(WORD_BITS, a), Unit(WORD_BITS, b));
    forall i | 0 <= i < WORD_BITS
      ensures e[i] == t[i]
    {
      assert i in d <==> word[i] != other[i];
    }
  }

  /** The check rejects every error of one, two or three bits among the 68 data and check bits. */
  lemma RejectsUpToThreeErrors(word: seq<bool>, other: seq<bool>)
    requires |word| == |other| == WORD_BITS && Accepts(word) && 1 <= Distance(word, other) <= 3
    ensures !Accepts(other)
  {
    if Distance(word, other) == 2 {
      var a, b := TwoDifferences(word, other);
      TwoOnesRejected(a, b);
      if Accepts(other) {
        AcceptedXor(word, other);
      }
    } else {
      RejectsOddErrors(word, other);
    }
  }
}
