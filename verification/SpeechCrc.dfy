/** The check bits of the speech channel: division by 1 + X^3 + X^7 and an overall parity bit. */
module SpeechCrc {
  import opened BitSeq

  const DATA_BITS: nat := 60
  const CHECK_BITS: nat := 8

  /** One division step: a 1 at place d is moved to places d - 4 and d - 7. */
  function Reduce(w: seq<bool>, d: nat): (r: seq<bool>)
    requires 7 <= d < |w|
    ensures |r| == |w|
  {
    if w[d] then w[d := false][d - 4 := !w[d - 4]][d - 7 := !w[d - 7]] else w
  }

  /** The word after the division steps at places |w| - 1 down to d. */
  function Divided(w: seq<bool>, d: nat): (r: seq<bool>)
    requires 7 <= d <= |w|
    ensures |r| == |w|
    decreases |w| - d
  {
    if d == |w| then w else Reduce(Divided(w, d + 1), d)
  }

  /** The seven remainder bits of data. */
  function Remainder(data: seq<bool>): (r: seq<bool>)
    ensures |r| == 7
  {
    Divided(Zeros(7) + data, 7)[..7]
  }

  function CheckBits(data: seq<bool>): (c: seq<bool>)
    ensures |c| == CHECK_BITS
  {
    Remainder(data) + [Parity(data + Remainder(data))]
  }

  /** The decoder's test of class 2 data followed by received check bits. */
  predicate Accepts(word: seq<bool>)
    requires |word| >= CHECK_BITS
  {
    CheckBits(word[..|word| - CHECK_BITS]) == word[|word| - CHECK_BITS..]
  }

  // ---- The loops ----

  method SpeechCrc(class2: seq<bool>, crc: array<bool>)
    requires |class2| == DATA_BITS && crc.Length == CHECK_BITS
    modifies crc
    ensures crc[..] == CheckBits(class2)
  {
    var w := new bool[67](_ => false);
    for k := 0 to 60
      invariant w[..7] == Zeros(7) && w[7..7 + k] == class2[..k]
    {
      w[k + 7] := class2[k];
    }
    assert w[..] == Zeros(7) + class2;
    Divide(w);
    ghost var r := Remainder(class2);
    assert w[..7] == w[..][..7] == r;
    for i := 0 to 7
      invariant w[..7] == r && crc[..i] == r[..i]
    {
      assert w[i] == w[..7][i];
      crc[i] := w[i];
    }
    assert crc[..7] == r[..7] == r;
    var parity := XorAll(false, class2, []);
    assert [] + class2 == class2;
    parity := XorAll(parity, crc[..7], class2);
    crc[7] := parity;
    assert crc[..] == crc[..7] + [crc[7]];
  }

  /** Long division in place. */
  method Divide(w: array<bool>)
    requires w.Length == 67
    modifies w
    ensures w[..] == Divided(old(w[..]), 7)
  {
    ghost var start := w[..];
    var d := 66;
    while d >= 7
      invariant 6 <= d <= 66 && w[..] == Divided(start, d + 1)
    {
      if w[d] {
        w[d] := false;
        w[d - 4] := !w[d - 4];
        w[d - 7] := !w[d - 7];
      }
      d := d - 1;
    }
  }

  /** Folds the bits of s into parity, which already holds those of done. */
  method XorAll(parity: bool, s: seq<bool>, ghost done: seq<bool>) returns (r: bool)
    requires parity == Parity(done)
    ensures r == Parity(done + s)
  {
    r := parity;
    assert done + s[..0] == done;
    for i := 0 to |s|
      invariant r == Parity(done + s[..i])
    {
      ParityOfNext(done + s[..i], s[i], done + s[..i + 1]);
      r := r != s[i];
    }
    assert s[..|s|] == s;
  }

  lemma ParityOfNext(s: seq<bool>, b: bool, t: seq<bool>)
    requires |t| == |s| + 1 && t[..|s|] == s && t[|s|] == b
    ensures Parity(t) == (Parity(s) != b)
  {
  }

  // ---- What the check rejects ----

  lemma ReduceXor(a: seq<bool>, b: seq<bool>, d: nat)
    requires 7 <= d < |a| == |b|
    ensures Reduce(Xor(a, b), d) == Xor(Reduce(a, d), Reduce(b, d))
  {
  }

  lemma {:induction false} DividedXor(a: seq<bool>, b: seq<bool>, d: nat)
    requires 7 <= d <= |a| == |b|
    ensures Divided(Xor(a, b), d) == Xor(Divided(a, d), Divided(b, d))
    decreases |a| - d
  {
    if d < |a| {
      DividedXor(a, b, d + 1);
      ReduceXor(Divided(a, d + 1), Divided(b, d + 1), d);
    }
  }

  /** Remainders are linear. */
  lemma RemainderXor(a: seq<bool>, b: seq<bool>)
    requires |a| == |b|
    ensures Remainder(Xor(a, b)) == Xor(Remainder(a), Remainder(b))
  {
    DividedXor(Zeros(7) + a, Zeros(7) + b, 7);
    assert Xor(Zeros(7) + a, Zeros(7) + b) == Zeros(7) + Xor(a, b);
  }

  lemma {:induction false} ParityXor(a: seq<bool>, b: seq<bool>)
    requires |a| == |b|
    ensures Parity(Xor(a, b)) == (Parity(a) != Parity(b))
  {
    if |a| > 0 {
      var n := |a| - 1;
      ParityXor(a[..n], b[..n]);
      assert Xor(a, b)[..n] == Xor(a[..n], b[..n]);
    }
  }

  lemma {:induction false} ParityIsDistance(a: seq<bool>, b: seq<bool>)
    requires |a| == |b|
    ensures Parity(Xor(a, b)) == (Distance(a, b) % 2 == 1)
  {
    if |a| > 0 {
      var n := |a| - 1;
      ParityIsDistance(a[..n], b[..n]);
      assert Xor(a, b)[..n] == Xor(a[..n], b[..n]);
    }
  }

  lemma ClosingBit(u: seq<bool>, word: seq<bool>)
    requires word == u + [Parity(u)]
    ensures !Parity(word)
  {
    ParityOfNext(u, Parity(u), word);
  }

  lemma Regroup(d: seq<bool>, r: seq<bool>, p: seq<bool>, word: seq<bool>)
    requires |d| <= |word| && word[..|d|] == d && word[|d|..] == r + p
    ensures word == (d + r) + p
  {
    assert word == d + (r + p);
  }

  lemma ClosedWord(d: seq<bool>, r: seq<bool>, word: seq<bool>)
    requires |d| <= |word| && word[..|d|] == d && word[|d|..] == r + [Parity(d + r)]
    ensures !Parity(word)
  {
    Regroup(d, r, [Parity(d + r)], word);
    ClosingBit(d + r, word);
  }

  /** Accepted words have even parity. */
  lemma AcceptedIsEven(word: seq<bool>)
    requires |word| >= CHECK_BITS && Accepts(word)
    ensures !Parity(word)
  {
    var n := |word| - CHECK_BITS;
    var d := word[..n];
    assert |d| == n;
    CheckedIsEven(d, word);
  }

  lemma CheckedIsEven(d: seq<bool>, word: seq<bool>)
    requires |d| <= |word| && word[..|d|] == d && word[|d|..] == CheckBits(d)
    ensures !Parity(word)
  {
    ClosedWord(d, Remainder(d), word);
  }

  /** The check rejects every error that hits an odd number of data and check bits. */
  lemma RejectsOddErrors(word: seq<bool>, other: seq<bool>)
    requires |word| == |other| >= CHECK_BITS && Accepts(word) && Distance(word, other) % 2 == 1
    ensures !Accepts(other)
  {
    ParityIsDistance(word, other);
    ParityXor(word, other);
    AcceptedIsEven(word);
    if Accepts(other) {
      AcceptedIsEven(other);
    }
  }

  /** Accepted words are closed under exclusive or. */
  lemma AcceptedXor(a: seq<bool>, b: seq<bool>)
    requires |a| == |b| >= CHECK_BITS && Accepts(a) && Accepts(b)
    ensures Accepts(Xor(a, b))
  {
    var n := |a| - CHECK_BITS;
    var x := Xor(a, b);
    RemainderXor(a[..n], b[..n]);
    assert Xor(a[..n], b[..n]) == x[..n];
    assert x[n..] == Xor(a[n..], b[n..]);
    var u, v := a[..n] + Remainder(a[..n]), b[..n] + Remainder(b[..n]);
    ParityXor(u, v);
    assert Xor(u, v) == x[..n] + Remainder(x[..n]);
  }
}
