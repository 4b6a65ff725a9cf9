/** The check bits by long division on the message itself, as a reference for the register. */
module Crc16Division {
  import opened BitSeq
  import opened Crc16

  /** The message with its first 16 bits inverted, followed by 16 zeros; zeros alone are inverted for an empty message. */
  function Dividend(info: seq<bool>): (w: seq<bool>)
    ensures |w| == |info| + 16
  {
    seq(|info| + 16, i requires 0 <= i < |info| + 16 => (i < |info| && info[i]) != (i < 16))
  }

  /** One division step by x^16 + x^12 + x^5 + 1: a 1 at place i is cancelled. */
  function Cancelled(w: seq<bool>, i: nat): (r: seq<bool>)
    requires i + 16 < |w|
    ensures |r| == |w|
  {
    if w[i] then w[i := false][i + 4 := !w[i + 4]][i + 11 := !w[i + 11]][i + 16 := !w[i + 16]] else w
  }

  /** The word after the division steps at the first n places. */
  function Divided(w: seq<bool>, n: nat): (r: seq<bool>)
    requires n + 16 <= |w|
    ensures |r| == |w|
  {
    if n == 0 then w else Cancelled(Divided(w, n - 1), n - 1)
  }

  /** Bit i of the message, 0 behind its end. */
  predicate Bit(info: seq<bool>, i: nat) {
    i < |info| && info[i]
  }

  /** The register is what division has made of the next 16 places, and nothing behind them has changed. */
  ghost predicate Holds(c: Register16, w: seq<bool>, info: seq<bool>, n: nat) {
    && n <= |info| && |w| == |info| + 16
    && (forall j: nat :: j < 16 ==> c[j] == (w[n + j] != Bit(info, n + j)))
    && forall i: nat :: n + 16 <= i < |w| ==> w[i] == Bit(info, i)
  }

  lemma StepDivides(c: Register16, w: seq<bool>, info: seq<bool>, n: nat, m: nat)
    requires Holds(c, w, info, n) && m == n + 1 <= |info|
    ensures Holds(Step(c, info[n]), Cancelled(w, n), info, m)
  {
    var d, v := Step(c, info[n]), Cancelled(w, n);
    assert c[0] == (w[n + 0] != Bit(info, n + 0));
    forall j: nat | j < 16
      ensures d[j] == (v[m + j] != Bit(info, m + j))
    {
      if j < 15 {
        assert c[j + 1] == (w[n + (j + 1)] != Bit(info, n + (j + 1)));
      }
    }
  }

  lemma {:induction false} RegisterDivides(info: seq<bool>, n: nat)
    requires n <= |info|
    ensures Holds(Run(Ones(16), info[..n]), Divided(Dividend(info), n), info, n)
    decreases n
  {
    if n == 0 {
      assert info[..0] == [];
    } else {
      RegisterDivides(info, n - 1);
      RunOneMore(Ones(16), info, n - 1);
      StepDivides(Run(Ones(16), info[..n - 1]), Divided(Dividend(info), n - 1), info, n - 1, n);
    }
  }

  lemma HoldsRemainder(c: Register16, w: seq<bool>, info: seq<bool>, n: nat)
    requires Holds(c, w, info, n) && n == |info|
    ensures c == w[n..]
  {
    forall j: nat | j < 16
      ensures c[j] == w[n..][j]
    {
      assert c[j] == (w[n + j] != Bit(info, n + j));
    }
  }

  /** The check bits are the complement of the remainder. */
  lemma FcsIsRemainder(info: seq<bool>)
    ensures Fcs(info) == Complement(Divided(Dividend(info), |info|)[|info|..])
  {
    RegisterDivides(info, |info|);
    assert info[..|info|] == info;
    HoldsRemainder(Run(Ones(16), info), Divided(Dividend(info), |info|), info, |info|);
  }
}
