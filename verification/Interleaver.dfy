/** The multiplicative block interleaver of ETSI EN 300 392-2 section 8.2.4.1. */
module Interleaver {
  import opened BitSeq

  /** Greatest common divisor, by Euclid. */
  function Gcd(a: nat, b: nat): nat
    decreases b
  {
    if b == 0 then a else Gcd(b, a % b)
  }

  /** Where input position k - 1 goes: j - 1 with j = 1 + (a * k) mod n. */
  function Target(n: nat, a: nat, k: nat): (j: nat)
    requires n > 0
    ensures j < n
  {
    (a * k) % n
  }

  /** Output of the de-interleaver. */
  function Deinterleaved<T>(s: seq<T>, a: nat): (r: seq<T>)
    ensures |r| == |s|
  {
    seq(|s|, k requires 0 <= k < |s| => s[Target(|s|, a, k + 1)])
  }

  /** out is what the interleaver must produce from s. */
  ghost predicate IsInterleaving<T>(s: seq<T>, a: nat, out: seq<T>) {
    |out| == |s| && forall k :: 1 <= k <= |s| ==> out[Target(|s|, a, k)] == s[k - 1]
  }

  // ---- Modular arithmetic ----

  lemma DivMod(x: int, n: int)
    requires n > 0
    ensures x == n * (x / n) + x % n
  {
  }

  /** Euclid's coefficients. */
  lemma {:induction false} Bezout(a: nat, b: nat) returns (u: int, v: int)
    ensures u * a + v * b == Gcd(a, b)
    decreases b
  {
    if b == 0 {
      u, v := 1, 0;
    } else {
      var u', v' := Bezout(b, a % b);
      DivMod(a, b);
      u, v := v', u' - v' * (a / b);
      assert v * b == u' * b - v' * (b * (a / b));
      assert u * a == v' * (b * (a / b)) + v' * (a % b);
    }
  }

  lemma {:induction false} NonzeroMultiple(q: int, n: int)
    requires q != 0 && n > 0
    ensures q * n >= n || q * n <= -n
    decreases if q > 0 then q else -q
  {
    if q > 1 {
      NonzeroMultiple(q - 1, n);
      assert q * n == (q - 1) * n + n;
    } else if q < -1 {
      NonzeroMultiple(q + 1, n);
      assert q * n == (q + 1) * n - n;
    }
  }

  lemma Distribute(a: int, k: int, l: int)
    ensures a * (k - l) == a * k - a * l
  {
  }

  lemma MultipleBelow(d: int, q: int, n: int)
    requires n > 0 && d == q * n && -n < d < n
    ensures d == 0
  {
    if q != 0 {
      NonzeroMultiple(q, n);
    }
  }

  lemma SameRemainder(x: int, y: int, n: int) returns (q: int)
    requires n > 0 && x % n == y % n
    ensures x - y == q * n
  {
    DivMod(x, n);
    DivMod(y, n);
    q := x / n - y / n;
    assert q * n == n * (x / n) - n * (y / n);
  }

  lemma RemainderOf(x: int, r: int, q: int, n: int)
    requires n > 0 && x == q * n + r && 0 <= r < n
    ensures x % n == r
  {
    DivMod(x, n);
    var d := x % n - r;
    assert (q - x / n) * n == q * n - n * (x / n);
    MultipleBelow(d, q - x / n, n);
  }

  lemma CancelFactor(u: int, v: int, a: int, n: int, d: int, q: int)
    requires u * a + v * n == 1 && a * d == q * n
    ensures d == (u * q + v * d) * n
  {
    calc {
      d;
      (u * a + v * n) * d;
      (u * a) * d + (v * n) * d;
      u * (a * d) + (v * d) * n;
      u * (q * n) + (v * d) * n;
      (u * q) * n + (v * d) * n;
      (u * q + v * d) * n;
    }
  }

  /** No two inputs go to the same output. */
  lemma TargetInjective(n: nat, a: nat, k: nat, l: nat)
    requires Gcd(a, n) == 1 && 1 <= k <= n && 1 <= l <= n
    requires Target(n, a, k) == Target(n, a, l)
    ensures k == l
  {
    var u, v := Bezout(a, n);
    var q := SameRemainder(a * k, a * l, n);
    Distribute(a, k, l);
    CancelFactor(u, v, a, n, k - l, q);
    MultipleBelow(k - l, u * q + v * (k - l), n);
  }

  lemma InverseImage(u: int, v: int, a: int, n: int, j: int, t: int, k: int)
    requires u * a + v * n == 1 && u * j == n * t + k
    ensures a * k == (-(v * j) - a * t) * n + j
  {
    calc {
      a * k;
      a * (u * j - n * t);
      a * (u * j) - a * (n * t);
      (u * a) * j - (a * t) * n;
      (1 - v * n) * j - (a * t) * n;
      j - (v * n) * j - (a * t) * n;
      j - (v * j) * n - (a * t) * n;
      (-(v * j) - a * t) * n + j;
    }
  }

  /** Every output has an input that goes there. */
  lemma TargetSurjective(n: nat, a: nat, j: nat) returns (k: nat)
    requires Gcd(a, n) == 1 && j < n
    ensures 1 <= k <= n && Target(n, a, k) == j
  {
    var u, v := Bezout(a, n);
    DivMod(u * j, n);
    var r, t := u * j % n, u * j / n;
    if r == 0 {
      k, t := n, t - 1;
      assert n * (t + 1) == n * t + n;
    } else {
      k := r;
    }
    InverseImage(u, v, a, n, j, t, k);
    RemainderOf(a * k, j, -(v * j) - a * t, n);
  }

  lemma {:induction false} GcdDivides(a: nat, b: nat) returns (c: int, d: int)
    ensures a == c * Gcd(a, b) && b == d * Gcd(a, b)
    decreases b
  {
    if b == 0 {
      c, d := 1, 0;
    } else {
      var c', d' := GcdDivides(b, a % b);
      DivMod(a, b);
      var g := Gcd(a, b);
      assert b == c' * g && a % b == d' * g;
      c, d := c' * (a / b) + d', c';
      assert b * (a / b) == (c' * (a / b)) * g;
    }
  }

  lemma UnitFactor(g: nat, m: int)
    ensures g * m == 1 ==> g == 1
  {
    if m >= 1 {
      assert g * m == g + g * (m - 1);
      assert g * (m - 1) >= 0;
    } else {
      assert g * (0 - m) >= 0;
    }
  }

  /** Output cell j is written by the interleaver's loop. */
  ghost predicate Written(n: nat, a: nat, j: nat)
    requires n > 0
  {
    exists k :: 1 <= k <= n && Target(n, a, k) == j
  }

  lemma TakeOutFactor(c: int, d: int, g: int, k: int, q: int)
    ensures (c * g) * k - (d * g) * q == g * (c * k - d * q)
  {
    calc {
      (c * g) * k - (d * g) * q;
      g * (c * k) - g * (d * q);
      g * (c * k - d * q);
    }
  }

  /** Cell 1 is written only when a and n have no common factor. */
  lemma CommonFactor(n: nat, a: nat, k: nat)
    requires n > 0 && Target(n, a, k) == 1
    ensures Gcd(a, n) == 1
  {
    var c, d := GcdDivides(a, n);
    var q := a * k / n;
    DivMod(a * k, n);
    TakeOutFactor(c, d, Gcd(a, n), k, q);
    UnitFactor(Gcd(a, n), c * k - d * q);
  }

  /** Every output cell is written if and only if a and n have no common factor. */
  lemma CoversIffCoprime(n: nat, a: nat)
    requires n > 1
    ensures (forall j: nat :: j < n ==> Written(n, a, j)) <==> Gcd(a, n) == 1
  {
    if Gcd(a, n) == 1 {
      forall j: nat | j < n
        ensures Written(n, a, j)
      {
        var k := TargetSurjective(n, a, j);
      }
    } else if Written(n, a, 1) {
      var k :| 1 <= k <= n && Target(n, a, k) == 1;
      CommonFactor(n, a, k);
    }
  }

  // ---- The two permutations undo each other ----

  /** For gcd(a, n) = 1 there is exactly one interleaving. */
  lemma InterleavingUnique<T>(s: seq<T>, a: nat, t: seq<T>, t': seq<T>)
    requires Gcd(a, |s|) == 1
    requires IsInterleaving(s, a, t) && IsInterleaving(s, a, t')
    ensures t == t'
  {
    forall j | 0 <= j < |s|
      ensures t[j] == t'[j]
    {
      var k := TargetSurjective(|s|, a, j);
    }
  }

  /** The interleaved sequence: output j comes from the input that goes there. */
  ghost function Interleaved<T>(s: seq<T>, a: nat): (r: seq<T>)
    requires Gcd(a, |s|) == 1
    ensures |r| == |s|
  {
    seq(|s|, j requires 0 <= j < |s| => s[Origin(|s|, a, j) - 1])
  }

  ghost function Origin(n: nat, a: nat, j: nat): (k: nat)
    requires Gcd(a, n) == 1 && j < n
    ensures 1 <= k <= n && Target(n, a, k) == j
  {
    assert exists k :: 1 <= k <= n && Target(n, a, k) == j by {
      var k := TargetSurjective(n, a, j);
    }
    var k :| 1 <= k <= n && Target(n, a, k) == j;
    k
  }

  lemma InterleavedIsInterleaving<T>(s: seq<T>, a: nat)
    requires Gcd(a, |s|) == 1
    ensures IsInterleaving(s, a, Interleaved(s, a))
  {
    forall k | 1 <= k <= |s|
      ensures Interleaved(s, a)[Target(|s|, a, k)] == s[k - 1]
    {
      TargetInjective(|s|, a, k, Origin(|s|, a, Target(|s|, a, k)));
    }
  }

  /** De-interleaving undoes interleaving. */
  lemma DeinterleaveInterleaved<T>(s: seq<T>, a: nat)
    requires Gcd(a, |s|) == 1
    ensures Deinterleaved(Interleaved(s, a), a) == s
  {
    InterleavedIsInterleaving(s, a);
  }

  /** Interleaving undoes de-interleaving. */
  lemma InterleaveDeinterleaved<T>(s: seq<T>, a: nat)
    requires Gcd(a, |s|) == 1
    ensures Interleaved(Deinterleaved(s, a), a) == s
  {
    var d := Deinterleaved(s, a);
    forall j | 0 <= j < |s|
      ensures Interleaved(d, a)[j] == s[j]
    {
      var k := Origin(|s|, a, j);
      assert d[k - 1] == s[Target(|s|, a, k)];
    }
  }

  lemma DeinterleavedNoFarther<T>(s: seq<T>, t: seq<T>, a: nat)
    requires |s| == |t| && Gcd(a, |s|) == 1
    ensures Distance(Deinterleaved(s, a), Deinterleaved(t, a)) <= Distance(s, t)
  {
    var n := |s|;
    var f: seq<int> := seq(n, k requires 0 <= k < n => Target(n, a, k + 1));
    forall k, l | 0 <= k < n && 0 <= l < n && f[k] == f[l]
      ensures k == l
    {
      TargetInjective(n, a, k + 1, l + 1);
    }
    GatherDistance(s, t, f);
    assert Gather(s, f) == Deinterleaved(s, a);
    assert Gather(t, f) == Deinterleaved(t, a);
  }

  lemma InterleavedNoFarther<T>(s: seq<T>, t: seq<T>, a: nat)
    requires |s| == |t| && Gcd(a, |s|) == 1
    ensures Distance(Interleaved(s, a), Interleaved(t, a)) <= Distance(s, t)
  {
    var n := |s|;
    var f: seq<int> := seq(n, j requires 0 <= j < n => Origin(n, a, j) - 1);
    assert forall j, l :: 0 <= j < n && 0 <= l < n && Origin(n, a, j) == Origin(n, a, l) ==> j == l;
    GatherDistance(s, t, f);
    assert Gather(s, f) == Interleaved(s, a);
    assert Gather(t, f) == Interleaved(t, a);
  }

  /** De-interleaving keeps the number of differences between two blocks. */
  lemma DeinterleavedDistance<T>(s: seq<T>, t: seq<T>, a: nat)
    requires |s| == |t| && Gcd(a, |s|) == 1
    ensures Distance(Deinterleaved(s, a), Deinterleaved(t, a)) == Distance(s, t)
  {
    DeinterleavedNoFarther(s, t, a);
    InterleavedNoFarther(Deinterleaved(s, a), Deinterleaved(t, a), a);
    InterleaveDeinterleaved(s, a);
    InterleaveDeinterleaved(t, a);
  }

  // ---- The in-place loops ----

  method InterleavePerm<T>(input: seq<T>, a: nat, out: array<T>)
    requires out.Length == |input|
    modifies out
    ensures Gcd(a, |input|) == 1 ==> out[..] == Interleaved(input, a)
  {
    var n := |input|;
    for k := 1 to n + 1
      invariant Gcd(a, n) == 1 ==> forall l :: 1 <= l < k ==> out[Target(n, a, l)] == input[l - 1]
    {
      var j := 1 + (a * k) % n;
      assert j - 1 == Target(n, a, k);
      if Gcd(a, n) == 1 {
        forall l | 1 <= l < k
          ensures Target(n, a, l) != j - 1
        {
          if Target(n, a, l) == j - 1 {
            TargetInjective(n, a, k, l);
          }
        }
      }
      out[j - 1] := input[k - 1];
    }
    if Gcd(a, n) == 1 {
      assert IsInterleaving(input, a, out[..]);
      InterleavedIsInterleaving(input, a);
      InterleavingUnique(input, a, out[..], Interleaved(input, a));
    }
  }

  method DeinterleavePerm<T>(input: seq<T>, a: nat, out: array<T>)
    requires out.Length == |input|
    modifies out
    ensures out[..] == Deinterleaved(input, a)
  {
    var n := |input|;
    for k := 1 to n + 1
      invariant forall l :: 0 <= l < k - 1 ==> out[l] == Deinterleaved(input, a)[l]
    {
      var j := 1 + (a * k) % n;
      out[k - 1] := input[j - 1];
      assert Deinterleaved(input, a)[k - 1] == input[Target(n, a, k)];
    }
  }
}
