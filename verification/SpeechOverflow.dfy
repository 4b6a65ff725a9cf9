/**
 * What the 16-bit speech decoder does when metrics overflow: in the first step that takes the
 * magnitude received along a clean path beyond 2^15, its traceback leaves that path.
 */
module SpeechOverflow {
  import opened Wrappers
  import opened BitSeq
  import opened Trellis
  import opened ConvCode
  import opened BranchMetrics
  import opened CodeDistance
  import opened Viterbi
  import opened SpeechCode
  import opened SpeechMetrics
  import opened SpeechViterbi
  import opened SpeechRange

  // ---- Tracebacks ----

  /** State u comes before state t, and x is the bit of t. */
  predicate WalkStep(u: nat, t: nat, x: bool) {
    t < 16 && (u == (2 * t) % 16 || u == (2 * t) % 16 + 1) && x == (t / 8 == 1)
  }

  /** The states of a traceback, oldest first, and its bits. */
  ghost predicate IsTraceback(soft: seq<int>, st: seq<nat>, x: seq<bool>) {
    |st| == |x| + 1 && 3 * |x| <= |soft| && forall j: nat :: j < |x| ==> TracedAt(soft, st, x, j)
  }

  predicate TracedAt(soft: seq<int>, st: seq<nat>, x: seq<bool>, j: nat) {
    && j + 1 < |st| && j < |x| && 3 * j + 3 <= |soft| && st[j + 1] < 16
    && st[j] == Previous16(soft, j, st[j + 1]) && x[j] == (st[j + 1] / 8 == 1)
  }

  lemma {:induction false} TracebackStates(soft: seq<int>, i: nat, t: nat) returns (st: seq<nat>, x: seq<bool>)
    requires 3 * i <= |soft| && t < 16
    ensures IsTraceback(soft, st, x) && |x| == i && st[i] == t && x == Trace16(soft, i, t)
  {
    if i == 0 {
      st, x := TracebackStart(soft, t);
    } else {
      var u := Previous16(soft, i - 1, t);
      var before, y := TracebackStates(soft, i - 1, u);
      st, x := TracebackStep(soft, before, y, i - 1, i, t, u);
    }
  }

  lemma TracebackStart(soft: seq<int>, t: nat) returns (st: seq<nat>, x: seq<bool>)
    requires t < 16
    ensures IsTraceback(soft, st, x) && |x| == 0 && st[0] == t && x == Trace16(soft, 0, t)
  {
    st, x := [t], [];
  }

  lemma TracebackStep(soft: seq<int>, before: seq<nat>, y: seq<bool>, i: nat, j: nat, t: nat, u: nat)
    returns (st: seq<nat>, x: seq<bool>)
    requires j == i + 1 && 3 * j <= |soft| && t < 16 && u == Previous16(soft, i, t)
    requires IsTraceback(soft, before, y) && |y| == i && before[i] == u && y == Trace16(soft, i, u)
    ensures IsTraceback(soft, st, x) && |x| == j && st[j] == t && x == Trace16(soft, j, t)
  {
    st, x := before + [t], y + [t / 8 == 1];
    TracebackExtends(soft, before, y, t);
    TraceGoesOn(soft, i, j, t, y);
  }

  lemma TraceGoesOn(soft: seq<int>, i: nat, j: nat, t: nat, x: seq<bool>)
    requires j == i + 1 && 3 * i + 3 <= |soft| && t < 16 && x == Trace16(soft, i, Previous16(soft, i, t))
    ensures Trace16(soft, j, t) == x + [t / 8 == 1]
  {
    TraceExtends(soft, i, j, t);
  }

  lemma TracebackExtends(soft: seq<int>, st: seq<nat>, x: seq<bool>, t: nat)
    requires IsTraceback(soft, st, x) && t < 16 && 3 * |x| + 3 <= |soft| && st[|x|] == Previous16(soft, |x|, t)
    ensures IsTraceback(soft, st + [t], x + [t / 8 == 1])
  {
    var st', x' := st + [t], x + [t / 8 == 1];
    forall j: nat | j < |x'|
      ensures TracedAt(soft, st', x', j)
    {
      assert j < |x| ==> TracedAt(soft, st, x, j);
    }
  }

  lemma TracedStep(soft: seq<int>, st: seq<nat>, x: seq<bool>, j: nat)
    requires TracedAt(soft, st, x, j)
    ensures WalkStep(st[j], st[j + 1], x[j])
  {
  }

  lemma DecodedTraceback(soft: seq<int>, n: nat) returns (st: seq<nat>, x: seq<bool>)
    requires 3 * n <= |soft|
    ensures IsTraceback(soft, st, x) && |x| == n && x == Decode16(soft, n)
  {
    st, x := TracebackStates(soft, n, 0);
  }

  /** A state is the four bits before it, the newest on top. */
  lemma FourWalks(u0: nat, u1: nat, u2: nat, u3: nat, t: nat, x0: bool, x1: bool, x2: bool, x3: bool)
    requires WalkStep(u3, t, x3) && WalkStep(u2, u3, x2) && WalkStep(u1, u2, x1) && WalkStep(u0, u1, x0)
    ensures t == 8 * BitValue(x3) + 4 * BitValue(x2) + 2 * BitValue(x1) + BitValue(x0)
  {
    WalkDoubles(u3, t, x3);
    WalkDoubles(u2, u3, x2);
    WalkDoubles(u1, u2, x1);
    WalkDoubles(u0, u1, x0);
  }

  lemma WalkDoubles(u: nat, t: nat, x: bool)
    requires WalkStep(u, t, x)
    ensures u < 16 && t < 16 && 2 * t <= u + 16 * BitValue(x) <= 2 * t + 1
  {
  }

  lemma RevOfBits(a: bool, b: bool, c: bool, d: bool)
    ensures Rev(8 * BitValue(a) + 4 * BitValue(b) + 2 * BitValue(c) + BitValue(d))
            == 8 * BitValue(d) + 4 * BitValue(c) + 2 * BitValue(b) + BitValue(a)
  {
  }

  lemma LastFour(x: seq<bool>, i: nat)
    requires 4 <= i <= |x|
    ensures x[..i] == x[..i - 4] + [x[i - 4], x[i - 3], x[i - 2], x[i - 1]]
  {
  }

  lemma StateOfLastFour(x: seq<bool>, i: nat)
    requires 4 <= i <= |x|
    ensures StateAfter(x[..i])
            == 8 * BitValue(x[i - 4]) + 4 * BitValue(x[i - 3]) + 2 * BitValue(x[i - 2]) + BitValue(x[i - 1])
  {
    LastFour(x, i);
    FourMoreBits(x[..i - 4], x[i - 4], x[i - 3], x[i - 2], x[i - 1]);
  }

  lemma TracedState(soft: seq<int>, st: seq<nat>, x: seq<bool>, i: nat)
    requires IsTraceback(soft, st, x) && 4 <= i <= |x|
    ensures st[i] == 8 * BitValue(x[i - 1]) + 4 * BitValue(x[i - 2]) + 2 * BitValue(x[i - 3]) + BitValue(x[i - 4])
  {
    assert TracedAt(soft, st, x, i - 1) && TracedAt(soft, st, x, i - 2);
    assert TracedAt(soft, st, x, i - 3) && TracedAt(soft, st, x, i - 4);
    TracedStep(soft, st, x, i - 1);
    TracedStep(soft, st, x, i - 2);
    TracedStep(soft, st, x, i - 3);
    TracedStep(soft, st, x, i - 4);
    FourWalks(st[i - 4], st[i - 3], st[i - 2], st[i - 1], st[i], x[i - 4], x[i - 3], x[i - 2], x[i - 1]);
  }

  /** A traceback goes through the states of its bits. */
  lemma TracebackFollows(soft: seq<int>, st: seq<nat>, x: seq<bool>, i: nat)
    requires IsTraceback(soft, st, x) && 4 <= i <= |x|
    ensures st[i] == Rev(StateAfter(x[..i]))
  {
    TracedState(soft, st, x, i);
    StateOfLastFour(x, i);
    RevOfBits(x[i - 4], x[i - 3], x[i - 2], x[i - 1]);
  }

  /** A decision that leaves the path of x makes the decoder return other bits than x. */
  lemma LeavesPath(soft: seq<int>, x: seq<bool>, k: nat, next: nat)
    requires 4 <= k && next == k + 1 <= |x| && 3 * |x| <= |soft|
    requires Previous16(soft, k, Rev(StateAfter(x[..next]))) != Rev(StateAfter(x[..k]))
    ensures Decode16(soft, |x|) != x
  {
    var st, z := DecodedTraceback(soft, |x|);
    StaysOnPath(soft, st, z, k, next);
  }

  lemma StaysOnPath(soft: seq<int>, st: seq<nat>, z: seq<bool>, k: nat, next: nat)
    requires IsTraceback(soft, st, z) && 4 <= k && next == k + 1 <= |z|
    ensures Previous16(soft, k, Rev(StateAfter(z[..next]))) == Rev(StateAfter(z[..k]))
  {
    TracebackFollows(soft, st, z, k);
    TracebackFollows(soft, st, z, next);
    assert TracedAt(soft, st, z, k);
  }

  // ---- Clean values ----

  /** No more than three 8-bit magnitudes. */
  const STEP_LIMIT: nat := 384

  /** The row favours step i of the path x: the path's register costs nothing there, and no register much. */
  predicate RowFavours(w: seq<Row>, x: seq<bool>, i: nat)
    requires i < |w| <= |x|
  {
    w[i][RegisterAt(x, i)] == 0 && forall sr :: 0 <= sr < 32 ==> 0 <= w[i][sr] <= STEP_LIMIT
  }

  ghost predicate FavoursUpTo(w: seq<Row>, x: seq<bool>, n: nat)
    requires n <= |w| <= |x|
  {
    n == 0 || (FavoursUpTo(w, x, n - 1) && RowFavours(w, x, n - 1))
  }

  /** All rows favour the path. */
  ghost predicate Favours(w: seq<Row>, x: seq<bool>) {
    |w| <= |x| && FavoursUpTo(w, x, |w|)
  }

  lemma {:induction false} FavoursAt(w: seq<Row>, x: seq<bool>, n: nat, i: nat)
    requires i < n <= |w| <= |x| && FavoursUpTo(w, x, n)
    ensures RowFavours(w, x, i)
  {
    if i < n - 1 {
      FavoursAt(w, x, n - 1, i);
    }
  }

  lemma {:induction false} FavouredCost(w: seq<Row>, x: seq<bool>, i: nat)
    requires Favours(w, x) && i <= |w|
    ensures Cost(w, x[..i]) == 0
  {
    if i > 0 {
      FavouredCost(w, x, i - 1);
      FavouredStep(w, x, i - 1, i);
    }
  }

  lemma FavouredStep(w: seq<Row>, x: seq<bool>, i: nat, j: nat)
    requires Favours(w, x) && j == i + 1 <= |w|
    ensures Cost(w, x[..j]) == Cost(w, x[..i])
  {
    var y := x[..|w|];
    assert y[..i] == x[..i] && y[..j] == x[..j];
    StepCost(w, y, i);
    assert RegisterAt(y, i) == RegisterAt(x, i);
    FavoursAt(w, x, |w|, i);
  }

  lemma AnyStep(w: seq<Row>, x: seq<bool>, y: seq<bool>, i: nat, j: nat)
    requires Favours(w, x) && j == i + 1 <= |y| <= |w|
    ensures Cost(w, y[..j]) <= Cost(w, y[..i]) + STEP_LIMIT
  {
    StepCost(w, y, i);
    FavoursAt(w, x, |w|, i);
  }

  /** Every state is only four steps away from the favoured path. */
  lemma NearBest(w: seq<Row>, x: seq<bool>, i: nat, s: nat)
    requires Favours(w, x) && 4 <= i <= |w| && s < 16
    ensures Best(w, i, s).Some? && Best(w, i, s).value <= 4 * STEP_LIMIT
  {
    var a, b, c, d := s / 8 == 1, (s / 4) % 2 == 1, (s / 2) % 2 == 1, s % 2 == 1;
    var y := x[..i - 4] + [a, b, c, d];
    FourMoreBits(x[..i - 4], a, b, c, d);
    FourBits(s);
    FavouredCost(w, x, i - 4);
    assert y[..i - 4] == x[..i - 4];
    AnyStep(w, x, y, i - 4, i - 3);
    AnyStep(w, x, y, i - 3, i - 2);
    AnyStep(w, x, y, i - 2, i - 1);
    AnyStep(w, x, y, i - 1, i);
    assert y[..i] == y;
    BestIsLowerBound(w, y);
  }

  lemma FavouredBest(w: seq<Row>, x: seq<bool>, i: nat)
    requires Favours(w, x) && i <= |w|
    ensures Best(w, i, StateAfter(x[..i])).Some? && Best(w, i, StateAfter(x[..i])).value <= 0
  {
    FavouredCost(w, x, i);
    BestIsLowerBound(w, x[..i]);
  }

  /** All metrics are near the least possible one, which is that of the favoured path. */
  lemma MetricsNear(p: seq<int>, w: seq<Row>, x: seq<bool>, k: nat, magnitude: nat, s: nat)
    requires |p| == 16 && Favours(w, x) && 4 <= k <= |w| && Exact(p, w, k, magnitude) && s < 16
    ensures 0 - magnitude <= p[Rev(s)] <= 8 * STEP_LIMIT - magnitude
    ensures s == StateAfter(x[..k]) ==> p[Rev(s)] == 0 - magnitude
  {
    RevTwice(s);
    ExactAt(p, w, k, magnitude, Rev(s));
    NearBest(w, x, k, s);
    FavouredBest(w, x, k);
  }

  // ---- The step that passes 2^15 ----

  /** The favoured candidate wraps around to the top and the other one does not. */
  lemma WrongChoice(favoured: int, other: int, triple: nat, magnitude: nat)
    requires favoured == 0 - magnitude && 0 - magnitude <= other <= 8 * STEP_LIMIT - magnitude && triple <= STEP_LIMIT
    requires magnitude <= 0x8000 < magnitude + triple
    ensures Int16(other + triple) < Int16(favoured - triple)
  {
    WrapsToTop(favoured - triple);
    Int16Fits(other + triple);
  }

  lemma WrapsToTop(x: int)
    requires -0x1_0000 <= x < -0x8000
    ensures Int16(x) == x + 0x1_0000
  {
  }

  lemma SmallTriple(rx: seq<int>)
    requires |rx| == 3 && IsInt8(rx[0]) && IsInt8(rx[1]) && IsInt8(rx[2])
    ensures TripleMagnitude(rx) <= STEP_LIMIT
  {
  }

  /** Old state, new state and register of a step. */
  lemma StateStep(x: seq<bool>, k: nat, next: nat)
    requires next == k + 1 <= |x|
    ensures var s, r := StateAfter(x[..k]), StateAfter(x[..next]);
            && r / 2 == s % 8 && RegisterAt(x, k) == if s < 8 then r else r + 16
  {
    assert x[..next] == x[..k] + [x[k]];
    RegisterExtend(x[..k], x[k]);
    ShiftedState(StateAfter(x[..k]), BitValue(x[k]));
  }

  lemma ShiftedState(s: nat, b: nat)
    requires s < 16 && b <= 1
    ensures var r := (2 * s + b) % 16; r / 2 == s % 8 && 2 * s + b == if s < 8 then r else r + 16
  {
  }

  /** Branch metric into state r when the favoured register is r or r + 16. */
  lemma FavouredBranch(rx: seq<int>, r: nat, low: bool)
    requires |rx| == 3 && r < 16 && SpeechRow(rx)[if low then r else r + 16] == 0
    ensures BranchMetric(rx, r) == if low then 0 - TripleMagnitude(rx) else TripleMagnitude(rx)
  {
    HighBranchIsNegated(rx, r);
  }

  /** In that step the decision is the wrong one. */
  lemma WrongDecision(p: seq<int>, rx: seq<int>, w: seq<Row>, x: seq<bool>, k: nat, next: nat, magnitude: nat, t: nat)
    requires |p| == 16 && |rx| == 3 && 4 <= k && next == k + 1 <= |w| && Favours(w, x) && w[k] == SpeechRow(rx)
    requires Exact(p, w, k, magnitude) && magnitude <= 0x8000 < magnitude + TripleMagnitude(rx)
    requires TripleMagnitude(rx) <= STEP_LIMIT
    requires t == Rev(StateAfter(x[..next]))
    ensures (High16(p, rx, t) < Low16(p, rx, t)) == (StateAfter(x[..k]) < 8)
  {
    var s, r := StateAfter(x[..k]), StateAfter(x[..next]);
    RevTwice(r);
    RevStep(t);
    StateStep(x, k, next);
    FavoursAt(w, x, |w|, k);
    FavouredBranch(rx, r, s < 8);
    Predecessors(t, r);
    MetricsNear(p, w, x, k, magnitude, r / 2);
    MetricsNear(p, w, x, k, magnitude, r / 2 + 8);
    var low, high := p[(2 * t) % 16], p[(2 * t) % 16 + 1];
    if s < 8 {
      WrongChoice(low, high, TripleMagnitude(rx), magnitude);
    } else {
      WrongChoice(high, low, TripleMagnitude(rx), magnitude);
    }
  }

  lemma Predecessors(t: nat, r: nat)
    requires t < 16 && r == Rev(t)
    ensures Rev(r / 2) == (2 * t) % 16 && Rev(r / 2 + 8) == (2 * t) % 16 + 1
  {
    RevStep(t);
    RevTwice((2 * t) % 16);
    RevTwice((2 * t) % 16 + 1);
  }

  lemma DecisionLeaves(soft: seq<int>, k: nat, p: seq<int>, rx: seq<int>, t: nat, s: nat)
    requires t < 16 && s < 16 && 3 * k + 3 <= |soft| && p == Metrics16(soft, k) && rx == soft[3 * k..3 * k + 3]
    requires (High16(p, rx, t) < Low16(p, rx, t)) == (s < 8) && Rev(t) / 2 == s % 8
    ensures Previous16(soft, k, t) != Rev(s)
  {
    Predecessors(t, Rev(t));
    RevTwice(s);
    RevTwice(Rev(t) / 2);
    RevTwice(Rev(t) / 2 + 8);
  }
}
