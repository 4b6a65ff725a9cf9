/** The exact speech decoder does not look at the scale of its soft values. */
module SpeechScaling {
  import opened BitSeq
  import opened Trellis
  import opened BranchMetrics
  import opened SpeechCode
  import opened SpeechMetrics
  import opened TchS

  lemma SpeechRowScaled(rx: seq<int>, ry: seq<int>, c: int)
    requires |rx| == |ry| == 3 && c > 0 && ry[0] == c * rx[0] && ry[1] == c * rx[1] && ry[2] == c * rx[2]
    ensures Rescaled(SpeechRow(rx), SpeechRow(ry), c, 0)
  {
    forall sr | 0 <= sr < 32
      ensures SpeechRow(ry)[sr] == c * SpeechRow(rx)[sr] + 0
    {
      MetricScaled(SpeechOutputs(sr), rx, ry, c);
    }
  }

  lemma MetricScaled(e: seq<bool>, rx: seq<int>, ry: seq<int>, c: int)
    requires |e| == |rx| == |ry| == 3 && c > 0 && ry[0] == c * rx[0] && ry[1] == c * rx[1] && ry[2] == c * rx[2]
    ensures SpeechMetric(e, ry) == c * SpeechMetric(e, rx)
  {
    PenaltyScaled(e[0], rx[0], ry[0], c);
    PenaltyScaled(e[1], rx[1], ry[1], c);
    PenaltyScaled(e[2], rx[2], ry[2], c);
    Distribute(c, SoftPenalty(e[0], rx[0]), SoftPenalty(e[1], rx[1]), SoftPenalty(e[2], rx[2]));
  }

  lemma PenaltyScaled(e: bool, r: int, s: int, c: int)
    requires c > 0 && s == c * r
    ensures SoftPenalty(e, s) == c * SoftPenalty(e, r)
  {
  }

  lemma Distribute(c: int, a: int, b: int, d: int)
    ensures c * a + c * b + c * d == c * (a + b + d)
  {
  }

  /** Full-confidence soft values of any magnitude give the hard decoder's bits, ties included. */
  lemma SpeechSoftRefinesHard(y: seq<bool>, c: int)
    requires |y| == CODED_BITS && c > 0
    ensures DecodedSteps(SoftBits(y, c)) == DecodedSteps(SoftBits(y, 1))
  {
    CodedLengths(STEPS);
    ScaleDoesNotMatter(y, STEPS, c);
  }

  lemma ScaleDoesNotMatter(y: seq<bool>, n: nat, c: int)
    requires Offset(n) <= |y| && c > 0
    ensures SpeechDecoded(SoftBits(y, c), n) == SpeechDecoded(SoftBits(y, 1), n)
  {
    TablesRescaled(y, n, c);
    SameDecisions(SpeechTable(SoftBits(y, 1), n), SpeechTable(SoftBits(y, c), n), c);
  }

  ghost predicate AllRescaled(w: seq<Row>, v: seq<Row>, c: int) {
    |w| == |v| && forall i :: 0 <= i < |w| ==> Rescaled(w[i], v[i], c, 0)
  }

  lemma SameDecisions(w: seq<Row>, v: seq<Row>, c: int)
    requires AllRescaled(w, v, c) && c > 0
    ensures Trellis.Decode(v) == Trellis.Decode(w)
  {
    DecodeIgnoresScale(w, v, c, seq(|w|, _ => 0));
  }

  lemma TablesRescaled(y: seq<bool>, n: nat, c: int)
    requires Offset(n) <= |y| && c > 0
    ensures AllRescaled(SpeechTable(SoftBits(y, 1), n), SpeechTable(SoftBits(y, c), n), c)
  {
    var w, v := SpeechTable(SoftBits(y, 1), n), SpeechTable(SoftBits(y, c), n);
    forall i | 0 <= i < |w|
      ensures Rescaled(w[i], v[i], c, 0)
    {
      SpeechTableAt(SoftBits(y, 1), n, i);
      SpeechTableAt(SoftBits(y, c), n, i);
      SpreadScaled(y, i, c);
      SpeechRowScaled(Spread(SoftBits(y, 1), i), Spread(SoftBits(y, c), i), c);
    }
  }

  lemma SpreadScaled(y: seq<bool>, i: nat, c: int)
    requires Offset(i + 1) <= |y|
    ensures var r, s := Spread(SoftBits(y, 1), i), Spread(SoftBits(y, c), i);
            s[0] == c * r[0] && s[1] == c * r[1] && s[2] == c * r[2]
  {
  }
}
