/**
 * The 16-state trellis shared by every decoder of the repository, and the theory of
 * add-compare-select decoding on it.
 *
 * A trellis is a sequence of rows, one per input bit. Row i gives the cost of each of the 32
 * values of the five-bit shift register after input bit i. The low four bits of the register are
 * the state; the low bit is the newest input bit.
 */
module Trellis {
  import opened Wrappers
  import opened BitSeq

  type Row = r: seq<int> | |r| == 32 witness seq(32, _ => 0)

  /** The shift register after the bits x: sr = ((sr << 1) | bit) & 0x1F from zero. */
  function Register(x: seq<bool>): (sr: nat)
    ensures sr < 32
  {
    if |x| == 0 then 0
    else (2 * Register(x[..|x| - 1]) + BitValue(x[|x| - 1])) % 32
  }

  /** The state after the bits x, the low four bits of the register. */
  function StateAfter(x: seq<bool>): (s: nat)
    ensures s < 16
  {
    Register(x) % 16
  }

  /** Cost of the path that the bits x drive through the trellis. */
  function Cost(w: seq<Row>, x: seq<bool>): int
    requires |x| <= |w|
  {
    if |x| == 0 then 0
    else Cost(w, x[..|x| - 1]) + w[|x| - 1][Register(x)]
  }

  /** Cost of the survivor into register value sr at step i, if its old state is reachable. */
  function Candidate(w: seq<Row>, i: nat, sr: nat): Option<int>
    requires i < |w| && sr < 32
    decreases i, 1
  {
    match Best(w, i, sr / 2)
    case None => None
    case Some(m) => Some(m + w[i][sr])
  }

  /** State s is entered at step i from register s or s + 16: is the second one strictly cheaper? */
  predicate TakesHigh(w: seq<Row>, i: nat, s: nat)
    requires i < |w| && s < 16
    decreases i, 2
  {
    var low, high := Candidate(w, i, s), Candidate(w, i, s + 16);
    high.Some? && (low.None? || high.value < low.value)
  }

  /** Path metric of state s after i steps; None while s cannot be reached from state 0. */
  function Best(w: seq<Row>, i: nat, s: nat): Option<int>
    requires i <= |w| && s < 16
    decreases i, 0
  {
    if i == 0 then (if s == 0 then Some(0) else None)
    else if TakesHigh(w, i - 1, s) then Candidate(w, i - 1, s + 16)
    else Candidate(w, i - 1, s)
  }

  /** The old state of the survivor into state s at step i. */
  function Predecessor(w: seq<Row>, i: nat, s: nat): (p: nat)
    requires i < |w| && s < 16
    ensures p < 16
  {
    s / 2 + if TakesHigh(w, i, s) then 8 else 0
  }

  /** Traceback of i steps from state s. */
  function Path(w: seq<Row>, i: nat, s: nat): (x: seq<bool>)
    requires i <= |w| && s < 16
    ensures |x| == i
  {
    if i == 0 then []
    else Path(w, i - 1, Predecessor(w, i - 1, s)) + [s % 2 == 1]
  }

  /** The decoder's answer: traceback of the whole trellis from state 0. */
  function Decode(w: seq<Row>): (x: seq<bool>)
    ensures |x| == |w|
  {
    Path(w, |w|, 0)
  }

  lemma RegisterExtend(x: seq<bool>, b: bool)
    ensures Register(x + [b]) == 2 * StateAfter(x) + BitValue(b)
  {
    assert (x + [b])[..|x|] == x;
  }

  lemma CostExtend(w: seq<Row>, x: seq<bool>, b: bool)
    requires |x| < |w|
    ensures Cost(w, x + [b]) == Cost(w, x) + w[|x|][2 * StateAfter(x) + BitValue(b)]
  {
    assert (x + [b])[..|x|] == x;
    RegisterExtend(x, b);
  }

  /** No path into a state is cheaper than the state's metric. */
  lemma {:induction false} BestIsLowerBound(w: seq<Row>, x: seq<bool>)
    requires |x| <= |w|
    ensures Best(w, |x|, StateAfter(x)).Some?
    ensures Best(w, |x|, StateAfter(x)).value <= Cost(w, x)
  {
    if |x| > 0 {
      var n := |x| - 1;
      BestIsLowerBound(w, x[..n]);
      var s, o := StateAfter(x), StateAfter(x[..n]);
      assert x[..n] + [x[n]] == x;
      RegisterExtend(x[..n], x[n]);
      assert Register(x) == s || Register(x) == s + 16;
      assert Candidate(w, n, Register(x)) == Some(Best(w, n, o).value + w[n][Register(x)]);
    }
  }

  /** Register value of the survivor into state s at step i. */
  function SurvivorRegister(w: seq<Row>, i: nat, s: nat): (sr: nat)
    requires i < |w| && s < 16
    ensures sr < 32
  {
    if TakesHigh(w, i, s) then s + 16 else s
  }

  /** The survivor shifts the low bit of s into the state it comes from. */
  lemma SurvivorShifts(w: seq<Row>, i: nat, s: nat)
    requires i < |w| && s < 16
    ensures SurvivorRegister(w, i, s) == 2 * Predecessor(w, i, s) + BitValue(s % 2 == 1)
    ensures SurvivorRegister(w, i, s) % 16 == s
    ensures SurvivorRegister(w, i, s) / 2 == Predecessor(w, i, s)
  {
  }

  lemma SurvivorMetric(w: seq<Row>, i: nat, s: nat)
    requires i < |w| && s < 16 && Best(w, i + 1, s).Some?
    ensures Best(w, i, Predecessor(w, i, s)).Some?
    ensures Best(w, i + 1, s).value
            == Best(w, i, Predecessor(w, i, s)).value + w[i][SurvivorRegister(w, i, s)]
  {
    SurvivorShifts(w, i, s);
    assert Best(w, i + 1, s) == Candidate(w, i, SurvivorRegister(w, i, s));
  }

  /** The traceback of a reachable state ends in that state and costs exactly its metric. */
  lemma {:induction false} PathAttainsBest(w: seq<Row>, i: nat, s: nat)
    requires i <= |w| && s < 16
    requires Best(w, i, s).Some?
    ensures StateAfter(Path(w, i, s)) == s
    ensures Cost(w, Path(w, i, s)) == Best(w, i, s).value
  {
    if i > 0 {
      var p, b, j := Predecessor(w, i - 1, s), s % 2 == 1, i - 1;
      SurvivorMetric(w, j, s);
      PathAttainsBest(w, j, p);
      ExtendPath(w, Path(w, j, p), b, p, s, SurvivorRegister(w, j, s));
      SurvivorShifts(w, j, s);
    }
  }

  lemma ExtendPath(w: seq<Row>, x: seq<bool>, b: bool, p: nat, s: nat, sr: nat)
    requires |x| < |w| && StateAfter(x) == p
    ensures sr == 2 * p + BitValue(b) && sr % 16 == s ==>
              StateAfter(x + [b]) == s && Cost(w, x + [b]) == Cost(w, x) + w[|x|][sr]
  {
    RegisterExtend(x, b);
    CostExtend(w, x, b);
  }

  lemma {:induction false} ZerosStayInZero(n: nat)
    ensures Register(Zeros(n)) == 0
  {
    if n > 0 {
      assert Zeros(n)[..n - 1] == Zeros(n - 1);
      ZerosStayInZero(n - 1);
    }
  }

  /** A bit string that starts and ends in state 0. */
  ghost predicate Terminated(x: seq<bool>) {
    StateAfter(x) == 0
  }

  /** The decoder returns a terminated bit string that no other one beats. */
  lemma DecodeIsOptimal(w: seq<Row>)
    ensures Terminated(Decode(w))
    ensures forall x: seq<bool> :: |x| == |w| && Terminated(x) ==> Cost(w, Decode(w)) <= Cost(w, x)
  {
    ZerosStayInZero(|w|);
    BestIsLowerBound(w, Zeros(|w|));
    PathAttainsBest(w, |w|, 0);
    forall x: seq<bool> | |x| == |w| && Terminated(x)
      ensures Cost(w, Decode(w)) <= Cost(w, x)
    {
      BestIsLowerBound(w, x);
    }
  }

  /** Row v is row w scaled by k and shifted by the same amount in all 32 entries. */
  ghost predicate Rescaled(w: Row, v: Row, k: int, d: int) {
    forall sr :: 0 <= sr < 32 ==> v[sr] == k * w[sr] + d
  }

  function Sum(d: seq<int>, i: nat): int
    requires i <= |d|
  {
    if i == 0 then 0 else Sum(d, i - 1) + d[i - 1]
  }

  function Affine(m: Option<int>, k: int, d: int): Option<int> {
    match m
    case None => None
    case Some(v) => Some(k * v + d)
  }

  lemma {:induction k} ProductIsPositive(k: int, a: int)
    requires k > 0 && a > 0
    ensures k * a > 0
  {
    if k > 1 {
      ProductIsPositive(k - 1, a);
      assert k * a == (k - 1) * a + a;
    }
  }

  lemma ScaledOrder(k: int, a: int, b: int)
    requires k > 0
    ensures a < b <==> k * a < k * b
  {
    if a < b {
      ProductIsPositive(k, b - a);
      assert k * (b - a) == k * b - k * a;
    } else if b < a {
      ProductIsPositive(k, a - b);
      assert k * (a - b) == k * a - k * b;
    }
  }

  lemma RescaledCandidate(w: seq<Row>, v: seq<Row>, k: int, d: seq<int>, i: nat, sr: nat)
    requires |w| == |v| == |d| && i < |w| && sr < 32
    requires Rescaled(w[i], v[i], k, d[i])
    requires Best(v, i, sr / 2) == Affine(Best(w, i, sr / 2), k, Sum(d, i))
    ensures Candidate(v, i, sr) == Affine(Candidate(w, i, sr), k, Sum(d, i + 1))
  {
    if Best(w, i, sr / 2).Some? {
      var m := Best(w, i, sr / 2).value;
      assert k * (m + w[i][sr]) == k * m + k * w[i][sr];
    }
  }

  lemma {:induction false} RescaledStep(w: seq<Row>, v: seq<Row>, k: int, d: seq<int>, i: nat, s: nat)
    requires |w| == |v| == |d| && i < |w| && s < 16 && k > 0
    requires forall j :: 0 <= j < |w| ==> Rescaled(w[j], v[j], k, d[j])
    ensures TakesHigh(v, i, s) == TakesHigh(w, i, s)
    ensures Best(v, i + 1, s) == Affine(Best(w, i + 1, s), k, Sum(d, i + 1))
    decreases i
  {
    forall sr | sr == s || sr == s + 16
      ensures Candidate(v, i, sr) == Affine(Candidate(w, i, sr), k, Sum(d, i + 1))
    {
      if i > 0 {
        RescaledStep(w, v, k, d, i - 1, sr / 2);
      }
      RescaledCandidate(w, v, k, d, i, sr);
    }
    var low, high := Candidate(w, i, s), Candidate(w, i, s + 16);
    if low.Some? && high.Some? {
      ScaledOrder(k, high.value, low.value);
    }
  }

  lemma {:induction false} RescaledPath(w: seq<Row>, v: seq<Row>, k: int, d: seq<int>, i: nat, s: nat)
    requires |w| == |v| == |d| && i <= |w| && s < 16 && k > 0
    requires forall j :: 0 <= j < |w| ==> Rescaled(w[j], v[j], k, d[j])
    ensures Path(v, i, s) == Path(w, i, s)
  {
    if i > 0 {
      RescaledStep(w, v, k, d, i - 1, s);
      RescaledPath(w, v, k, d, i - 1, Predecessor(w, i - 1, s));
    }
  }

  /** Scaling all costs by k > 0 and shifting rows keeps every decision, ties included. */
  lemma DecodeIgnoresScale(w: seq<Row>, v: seq<Row>, k: int, d: seq<int>)
    requires |w| == |v| == |d| && k > 0
    requires forall j :: 0 <= j < |w| ==> Rescaled(w[j], v[j], k, d[j])
    ensures Decode(v) == Decode(w)
  {
    RescaledPath(w, v, k, d, |w|, 0);
  }
}
