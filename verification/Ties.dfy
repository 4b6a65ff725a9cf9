/**
 * Which path the decoders return when several are equally cheap: every select step prefers the old
 * state below 8 at a tie, and this makes the answer the only path that is first in an order.
 */
module Ties {
  import opened Wrappers
  import opened BitSeq
  import opened Trellis
  import opened ConvCode

  /** At the last place where they differ, x has a 0 and y a 1. */
  ghost predicate Precedes(x: seq<bool>, y: seq<bool>) {
    |x| == |y| && exists d :: 0 <= d < |x| && !x[d] && y[d] && x[d + 1..] == y[d + 1..]
  }

  lemma PrecedesAppend(x: seq<bool>, y: seq<bool>, b: bool)
    requires Precedes(x, y)
    ensures Precedes(x + [b], y + [b])
  {
    var d :| 0 <= d < |x| && !x[d] && y[d] && x[d + 1..] == y[d + 1..];
    assert (x + [b])[d + 1..] == x[d + 1..] + [b] && (y + [b])[d + 1..] == y[d + 1..] + [b];
    assert !(x + [b])[d] && (y + [b])[d];
  }

  /** Behind a last difference the bits agree. */
  lemma AgreeBehind(x: seq<bool>, y: seq<bool>, d: nat, e: nat)
    requires d < |x| == |y| && e < |x|
    ensures d < e && x[d + 1..] == y[d + 1..] ==> x[e] == y[e]
  {
    if d < e {
      assert x[e] == x[d + 1..][e - d - 1] && y[e] == y[d + 1..][e - d - 1];
    }
  }

  lemma PrecedesIsStrict(x: seq<bool>, y: seq<bool>)
    requires Precedes(x, y)
    ensures !Precedes(y, x)
  {
    var d :| 0 <= d < |x| && !x[d] && y[d] && x[d + 1..] == y[d + 1..];
    forall e | 0 <= e < |x| && !y[e] && x[e]
      ensures x[e + 1..] != y[e + 1..]
    {
      AgreeBehind(x, y, d, e);
      AgreeBehind(x, y, e, d);
    }
  }

  lemma StateHoldsTaps(x: seq<bool>)
    ensures StateAfter(x) == BitValue(Tap(x, 0)) + 2 * BitValue(Tap(x, 1)) + 4 * BitValue(Tap(x, 2)) + 8 * BitValue(Tap(x, 3))
  {
    RegisterHoldsTaps(x);
  }

  /** States eight apart: the newest three bits agree and the one before them differs. */
  lemma MergingPaths(x: seq<bool>, y: seq<bool>)
    requires |x| == |y| && StateAfter(y) == StateAfter(x) + 8
    ensures Precedes(x, y)
  {
    StateHoldsTaps(x);
    StateHoldsTaps(y);
    assert !Tap(x, 3) && Tap(y, 3);
    var d := |x| - 4;
    assert x[d + 1..] == [x[d + 1], x[d + 2], x[d + 3]] && y[d + 1..] == [y[d + 1], y[d + 2], y[d + 3]];
    assert forall k: nat :: k < 3 ==> Tap(x, k) == x[|x| - 1 - k] && Tap(y, k) == y[|y| - 1 - k];
  }

  /** Prefixes of a cheapest path are cheapest, and where it leaves the survivor there is a tie. */
  lemma CheapestPrefix(w: seq<Row>, x: seq<bool>, n: nat, s: nat)
    requires |x| == n + 1 <= |w| && s == StateAfter(x) && Best(w, n + 1, s).Some? && Cost(w, x) == Best(w, n + 1, s).value
    ensures Best(w, n, StateAfter(x[..n])).Some? && Cost(w, x[..n]) == Best(w, n, StateAfter(x[..n])).value
    ensures var o, p := StateAfter(x[..n]), Predecessor(w, n, s); o == p || o == p + 8
  {
    var o := StateAfter(x[..n]);
    BestIsLowerBound(w, x[..n]);
    assert x[..n] + [x[n]] == x;
    RegisterExtend(x[..n], x[n]);
    CheapestStep(w, n, s, Register(x), Cost(w, x[..n]));
  }

  /** The survivor is the cheaper candidate, the lower one at a tie. */
  lemma CheapestStep(w: seq<Row>, n: nat, s: nat, sr: nat, cost: int)
    requires n < |w| && sr < 32 && s == sr % 16 && Best(w, n, sr / 2).Some? && Best(w, n + 1, s).Some?
    requires Best(w, n, sr / 2).value <= cost && cost + w[n][sr] == Best(w, n + 1, s).value
    ensures cost == Best(w, n, sr / 2).value && (sr / 2 == Predecessor(w, n, s) || sr / 2 == Predecessor(w, n, s) + 8)
  {
    assert sr == s || sr == s + 16;
    assert Candidate(w, n, sr) == Some(Best(w, n, sr / 2).value + w[n][sr]);
  }

  /** Every other cheapest path into a state comes after the one that is traced back. */
  lemma {:induction false} PathIsFirst(w: seq<Row>, x: seq<bool>, s: nat)
    requires |x| <= |w| && s == StateAfter(x) && Best(w, |x|, s).Some? && Cost(w, x) == Best(w, |x|, s).value
    ensures SameOrPrecedes(Path(w, |x|, s), x)
    decreases |x|, 1
  {
    if |x| > 0 {
      var n := |x| - 1;
      CheapestPrefix(w, x, n, s);
      RegisterExtend(x[..n], x[n]);
      assert x[..n] + [x[n]] == x;
      PrefixIsFirst(w, x[..n], n, s, StateAfter(x[..n]), Predecessor(w, n, s));
      LongerFirst(Path(w, n, Predecessor(w, n, s)), x[..n], x[n]);
    }
  }

  ghost predicate SameOrPrecedes(x: seq<bool>, y: seq<bool>) {
    x == y || Precedes(x, y)
  }

  lemma LongerFirst(x: seq<bool>, y: seq<bool>, b: bool)
    requires SameOrPrecedes(x, y)
    ensures SameOrPrecedes(x + [b], y + [b])
  {
    if x != y {
      PrecedesAppend(x, y, b);
    }
  }

  lemma {:induction false} PrefixIsFirst(w: seq<Row>, y: seq<bool>, n: nat, s: nat, o: nat, p: nat)
    requires |y| == n < |w| && s < 16 && o == StateAfter(y) && p == Predecessor(w, n, s) && Best(w, n + 1, s).Some?
    requires Best(w, n, o).Some? && Cost(w, y) == Best(w, n, o).value && (o == p || o == p + 8)
    ensures SameOrPrecedes(Path(w, n, p), y)
    decreases n, 2
  {
    if o == p {
      PathIsFirst(w, y, p);
    } else {
      SurvivorMetric(w, n, s);
      PathAttainsBest(w, n, p);
      MergingPaths(Path(w, n, p), y);
    }
  }

  /** No cost lower, and of equal cost only itself and later ones. */
  ghost predicate IsFirstCheapest(w: seq<Row>, y: seq<bool>)
    requires |y| == |w|
  {
    && Terminated(y)
    && forall x: seq<bool> :: |x| == |w| && Terminated(x) ==>
         Cost(w, y) < Cost(w, x) || (Cost(w, y) == Cost(w, x) && (x == y || Precedes(y, x)))
  }

  /** The decoder's answer is the first of the cheapest terminated paths, and no other path is. */
  lemma DecodeIsFirstCheapest(w: seq<Row>, y: seq<bool>)
    requires |y| == |w|
    ensures y == Decode(w) <==> IsFirstCheapest(w, y)
  {
    FirstCheapest(w);
    if IsFirstCheapest(w, y) && y != Decode(w) {
      assert Precedes(Decode(w), y);
      PrecedesIsStrict(Decode(w), y);
    }
  }

  lemma FirstCheapest(w: seq<Row>)
    ensures IsFirstCheapest(w, Decode(w))
  {
    var y := Decode(w);
    DecodeIsOptimal(w);
    forall x: seq<bool> | |x| == |w| && Terminated(x)
      ensures Cost(w, y) < Cost(w, x) || (Cost(w, y) == Cost(w, x) && (x == y || Precedes(y, x)))
    {
      BestIsLowerBound(w, x);
      PathAttainsBest(w, |w|, 0);
      if Cost(w, x) == Cost(w, y) {
        PathIsFirst(w, x, 0);
      }
    }
  }
}
