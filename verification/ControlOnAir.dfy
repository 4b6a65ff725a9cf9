/**
 * Bit for bit, what a transmitted block carries at each position: the SCH/F and SCH/HU
 * chains written out as formulas, with the numbers of each channel.
 */
module ControlOnAir {
  import opened BitSeq
  import opened Trellis
  import opened ConvCode
  import opened CodeDistance
  import opened Interleaver
  import opened Scrambler
  import opened ChannelCodec
  import opened ControlChannels

  // ---- Mother codes ----

  /** The bit d places before position i; 0 before the start. */
  predicate Back(x: seq<bool>, i: nat, d: nat)
    requires i < |x|
  {
    d <= i && x[i - d]
  }

  lemma BackIsTap(x: seq<bool>, i: nat, d: nat)
    requires i < |x|
    ensures Tap(x[..i + 1], d) == Back(x, i, d)
  {
  }

  lemma FiveBack(x: seq<bool>, i: nat)
    requires i < |x|
    ensures Tap(x[..i + 1], 0) == x[i] && Tap(x[..i + 1], 1) == Back(x, i, 1) && Tap(x[..i + 1], 2) == Back(x, i, 2)
    ensures Tap(x[..i + 1], 3) == Back(x, i, 3) && Tap(x[..i + 1], 4) == Back(x, i, 4)
  {
    BackIsTap(x, i, 0);
    BackIsTap(x, i, 1);
    BackIsTap(x, i, 2);
    BackIsTap(x, i, 3);
    BackIsTap(x, i, 4);
  }

  lemma {:induction false} EncodeAt(x: seq<bool>, i: nat)
    requires i < |x|
    ensures Encode(x)[4 * i..4 * i + 4] == Outputs(Register(x[..i + 1]))
  {
    var n := |x| - 1;
    if i < n {
      EncodeAt(x[..n], i);
      assert x[..n][..i + 1] == x[..i + 1];
      assert Encode(x)[4 * i..4 * i + 4] == Encode(x[..n])[4 * i..4 * i + 4];
    } else {
      assert x[..i + 1] == x;
    }
  }

  /** The four mother bits of bit i: 1+D+D^4, 1+D^2+D^3+D^4, 1+D+D^2+D^4 and 1+D+D^3+D^4. */
  lemma MotherBitsAt(x: seq<bool>, i: nat)
    requires i < |x|
    ensures Encode(x)[4 * i..4 * i + 4]
            == [(x[i] != Back(x, i, 1)) != Back(x, i, 4),
                ((x[i] != Back(x, i, 2)) != Back(x, i, 3)) != Back(x, i, 4),
                ((x[i] != Back(x, i, 1)) != Back(x, i, 2)) != Back(x, i, 4),
                ((x[i] != Back(x, i, 1)) != Back(x, i, 3)) != Back(x, i, 4)]
  {
    EncodeAt(x, i);
    TapsAt(x, i);
  }

  lemma TapsAt(x: seq<bool>, i: nat)
    requires i < |x|
    ensures Outputs(Register(x[..i + 1])) == TapOutputs(x[i], Back(x, i, 1), Back(x, i, 2), Back(x, i, 3), Back(x, i, 4))
  {
    OutputsAreTaps(x[..i + 1]);
    FiveBack(x, i);
  }

  lemma FourFrom(s: seq<bool>, k: nat, o: seq<bool>)
    requires k + 4 <= |s| && s[k..k + 4] == o
    ensures s[k] == o[0] && s[k + 1] == o[1] && s[k + 2] == o[2] && s[k + 3] == o[3]
  {
  }

  lemma {:induction false} PunctureAt(m: seq<bool>, p: nat, q: nat)
    requires q < p && 8 * p <= |m|
    ensures Puncture(m, p)[3 * q] == m[8 * q] && Puncture(m, p)[3 * q + 1] == m[8 * q + 1]
    ensures Puncture(m, p)[3 * q + 2] == m[8 * q + 4]
  {
    if q < p - 1 {
      PunctureAt(m, p - 1, q);
    }
  }

  /** The three coded bits of the bits 2 q and 2 q + 1. */
  lemma CodedBitsAt(x: seq<bool>, p: nat, q: nat)
    requires |x| == 2 * p && q < p
    ensures var c, i := Codeword(x, p), 2 * q;
            && c[3 * q] == ((x[i] != Back(x, i, 1)) != Back(x, i, 4))
            && c[3 * q + 1] == (((x[i] != Back(x, i, 2)) != Back(x, i, 3)) != Back(x, i, 4))
            && c[3 * q + 2] == ((x[i + 1] != Back(x, i + 1, 1)) != Back(x, i + 1, 4))
  {
    PunctureAt(Encode(x), p, q);
    MotherBitsAt(x, 2 * q);
    MotherBitsAt(x, 2 * q + 1);
    FourFrom(Encode(x), 8 * q, Encode(x)[8 * q..8 * q + 4]);
    FourFrom(Encode(x), 8 * q + 4, Encode(x)[8 * q + 4..8 * q + 8]);
  }

  // ---- Control channels ----

  lemma InterleavedAt(s: seq<bool>, a: nat, k: nat, n: nat)
    requires |s| == n && Gcd(a, n) == 1 && 1 <= k <= n
    ensures Interleaved(s, a)[(a * k) % n] == s[k - 1]
  {
    InterleavedIsInterleaving(s, a);
    assert Target(n, a, k) == (a * k) % n;
  }

  /** SCH/F: coded bit k (from 1) is sent at 103 k modulo 432, inverted where the cell's stream is 1. */
  lemma SchfBitOnAir(info: seq<bool>, init: bv32, k: nat)
    requires |info| == 268 && 1 <= k <= 432
    ensures Gcd(SCHF_A, 3 * SCHF_GROUPS) == 1
    ensures var j := (103 * k) % 432;
            Transmitted(info, SCHF_GROUPS, SCHF_A, init)[j] == (Codeword(Message(info), 144)[k - 1] != Stream(init, 432)[32 + j])
  {
    InterleaversAreCoprime();
    var c := Codeword(Message(info), 144);
    InterleavedAt(c, 103, k, 432);
    ScrambledBit(Interleaved(c, 103), init, (103 * k) % 432);
  }

  /** SCH/HU: coded bit k is sent at 13 k modulo 168. */
  lemma SchhuBitOnAir(info: seq<bool>, init: bv32, k: nat)
    requires |info| == 92 && 1 <= k <= 168
    ensures Gcd(SCHHU_A, 3 * SCHHU_GROUPS) == 1
    ensures var j := (13 * k) % 168;
            Transmitted(info, SCHHU_GROUPS, SCHHU_A, init)[j] == (Codeword(Message(info), 56)[k - 1] != Stream(init, 168)[32 + j])
  {
    InterleaversAreCoprime();
    var c := Codeword(Message(info), 56);
    InterleavedAt(c, 13, k, 168);
    ScrambledBit(Interleaved(c, 13), init, (13 * k) % 168);
  }
}
