/** Sequences of bits, Hamming distance, and how reordering positions affects it. */
module BitSeq {

  /** The byte the source stores for a bit: 0 or 1. */
  function BitValue(b: bool): nat {
    if b then 1 else 0
  }

  function Zeros(n: nat): (z: seq<bool>)
    ensures |z| == n
    ensures forall i :: 0 <= i < n ==> !z[i]
  {
    seq(n, _ => false)
  }

  /** Position-wise exclusive or of two equally long bit strings. */
  function Xor(a: seq<bool>, b: seq<bool>): (r: seq<bool>)
    requires |a| == |b|
    ensures |r| == |a|
    ensures forall i :: 0 <= i < |a| ==> r[i] == (a[i] != b[i])
  {
    seq(|a|, i requires 0 <= i < |a| => a[i] != b[i])
  }

  /** Number of positions in which two equally long strings differ. */
  function Distance<T(==)>(a: seq<T>, b: seq<T>): nat
    requires |a| == |b|
  {
    if |a| == 0 then 0
    else Distance(a[..|a| - 1], b[..|b| - 1]) + if a[|a| - 1] == b[|b| - 1] then 0 else 1
  }

  lemma {:induction false} DistanceTriangle<T>(a: seq<T>, b: seq<T>, c: seq<T>)
    requires |a| == |b| == |c|
    ensures Distance(a, c) <= Distance(a, b) + Distance(b, c)
  {
    if |a| > 0 {
      var n := |a| - 1;
      DistanceTriangle(a[..n], b[..n], c[..n]);
    }
  }

  lemma {:induction false} DistanceSymmetric<T>(a: seq<T>, b: seq<T>)
    requires |a| == |b|
    ensures Distance(a, b) == Distance(b, a)
  {
    if |a| > 0 {
      DistanceSymmetric(a[..|a| - 1], b[..|a| - 1]);
    }
  }

  /** Exclusive or of all bits. */
  function Parity(s: seq<bool>): bool {
    if |s| == 0 then false else Parity(s[..|s| - 1]) != s[|s| - 1]
  }

  /** The position of the first 1 at or after i. */
  function FirstOne(x: seq<bool>, i: nat): (k: nat)
    requires i <= |x| && exists j :: i <= j < |x| && x[j]
    ensures i <= k < |x| && x[k]
    ensures forall j :: i <= j < k ==> !x[j]
    decreases |x| - i
  {
    if x[i] then i else FirstOne(x, i + 1)
  }

  /** The positions in which two strings differ. */
  ghost function Differences<T>(a: seq<T>, b: seq<T>): set<int>
    requires |a| == |b|
  {
    set i | 0 <= i < |a| && a[i] != b[i]
  }

  lemma {:induction false} DistanceCounts<T>(a: seq<T>, b: seq<T>)
    requires |a| == |b|
    ensures Distance(a, b) == |Differences(a, b)|
  {
    if |a| == 0 {
      assert Differences(a, b) == {};
    } else {
      var n := |a| - 1;
      DistanceCounts(a[..n], b[..n]);
      var rest := Differences(a[..n], b[..n]);
      assert Differences(a, b) == if a[n] == b[n] then rest else rest + {n};
    }
  }

  lemma {:induction false} InjectionBound(from: set<int>, into: set<int>, f: seq<int>)
    requires forall i :: i in from ==> 0 <= i < |f| && f[i] in into
    requires forall i, j :: i in from && j in from && f[i] == f[j] ==> i == j
    ensures |from| <= |into|
    decreases |from|
  {
    if exists i :: i in from {
      var i :| i in from;
      InjectionBound(from - {i}, into - {f[i]}, f);
      assert |from - {i}| == |from| - 1;
      assert |into - {f[i]}| == |into| - 1;
    } else {
      assert from == {};
    }
  }

  /** Reading off positions f[0], f[1], ... of a string. */
  function Gather<T>(a: seq<T>, f: seq<int>): (r: seq<T>)
    requires forall k :: 0 <= k < |f| ==> 0 <= f[k] < |a|
    ensures |r| == |f|
    ensures forall k :: 0 <= k < |f| ==> r[k] == a[f[k]]
  {
    seq(|f|, k requires 0 <= k < |f| => a[f[k]])
  }

  /** Reading each position at most once cannot increase the number of differences. */
  lemma GatherDistance<T>(a: seq<T>, b: seq<T>, f: seq<int>)
    requires |a| == |b|
    requires forall k :: 0 <= k < |f| ==> 0 <= f[k] < |a|
    requires forall k, l :: 0 <= k < |f| && 0 <= l < |f| && f[k] == f[l] ==> k == l
    ensures Distance(Gather(a, f), Gather(b, f)) <= Distance(a, b)
  {
    DistanceCounts(a, b);
    DistanceCounts(Gather(a, f), Gather(b, f));
    InjectionBound(Differences(Gather(a, f), Gather(b, f)), Differences(a, b), f);
  }

  lemma SplitLastTwo<T>(x: seq<T>)
    requires |x| >= 2
    ensures x == x[..|x| - 2] + [x[|x| - 2]] + [x[|x| - 1]]
  {
  }

  lemma SplitLastThree<T>(x: seq<T>)
    requires |x| >= 3
    ensures x == x[..|x| - 3] + [x[|x| - 3], x[|x| - 2], x[|x| - 1]]
  {
  }

  lemma SplitInThree<T>(x: seq<T>, f: nat, m: nat)
    requires f <= m <= |x|
    ensures x == x[..f] + (x[f..m] + x[m..])
  {
  }
}
