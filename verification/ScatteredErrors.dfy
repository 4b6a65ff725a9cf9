/**
 * Errors far apart: however many coded bits are wrong, the decoders restore the sent bits when no two
 * wrong ones are close to each other.
 */
module ScatteredErrors {
  import opened BitSeq
  import opened Trellis
  import opened ConvCode
  import opened BranchMetrics
  import opened CodeDistance
  import opened ErrorCorrection
  import opened SpeechCode
  import opened SpeechMetrics
  import opened ScatterHeights

  /** The two punctured codes. */
  datatype Code = Control | Speech

  function Outs(code: Code, sr: nat): (o: seq<bool>)
    requires sr < 32
    ensures |o| >= 3
  {
    match code case Control => Outputs(sr) case Speech => SpeechOutputs(sr)
  }

  /** Outputs kept of step i. */
  function Keep(code: Code, i: nat): (n: nat)
    ensures 1 <= n <= 3
  {
    match code case Control => (if i % 2 == 0 then 2 else 1) case Speech => KeepCount(i)
  }

  /** Coded bits of step i. */
  function KeptOuts(code: Code, sr: nat, i: nat): (o: seq<bool>)
    requires sr < 32
    ensures |o| == Keep(code, i)
  {
    Outs(code, sr)[..Keep(code, i)]
  }

  /** Coded bits before step i. */
  function Before(code: Code, i: nat): nat {
    if i == 0 then 0 else Before(code, i - 1) + Keep(code, i - 1)
  }

  function Coded(code: Code, x: seq<bool>): (c: seq<bool>)
    ensures |c| == Before(code, |x|)
  {
    if |x| == 0 then []
    else Coded(code, x[..|x| - 1]) + KeptOuts(code, Register(x), |x| - 1)
  }

  /** No two errors closer than this are within reach of one another. */
  function Gap(code: Code): (gap: nat)
    ensures gap > 0
  {
    match code case Control => CONTROL_GAP case Speech => SPEECH_GAP
  }

  /** Any two marked positions are at least gap apart. */
  ghost predicate Scattered(r: seq<bool>, gap: nat) {
    forall i, j :: 0 <= i < j < |r| && r[i] && r[j] ==> j - i >= gap
  }

  // ---- Positions ----

  /** The coded bits of step i are the outputs kept of its register. */
  lemma {:induction false} CodedAt(code: Code, x: seq<bool>, c: seq<bool>, i: nat, j: nat, o: seq<bool>)
    requires j == i + 1 <= |x| && c == Coded(code, x) && o == KeptOuts(code, RegisterAt(x, i), i)
    ensures Before(code, i) <= Before(code, j) == Before(code, i) + |o| <= |c|
    ensures c[Before(code, i)..Before(code, j)] == o
  {
    BeforeMonotone(code, j, |x|);
    var n := |x| - 1;
    var y := x[..n];
    CodedLast(code, x, n);
    if j < |x| {
      SameRegister(x, n, i, j);
      CodedAt(code, y, Coded(code, y), i, j, o);
      SlicePrefix(Coded(code, y), KeptOuts(code, Register(x), n), Before(code, i), Before(code, j));
    } else {
      assert x[..j] == x;
      LastPart(Coded(code, y), o, Before(code, j));
    }
  }

  lemma SameRegister(x: seq<bool>, n: nat, i: nat, j: nat)
    requires j == i + 1 <= n <= |x|
    ensures RegisterAt(x[..n], i) == RegisterAt(x, i)
  {
    assert x[..n][..j] == x[..j];
  }

  lemma CodedLast(code: Code, x: seq<bool>, n: nat)
    requires |x| == n + 1
    ensures Coded(code, x) == Coded(code, x[..n]) + KeptOuts(code, Register(x), n)
    ensures Before(code, n + 1) == Before(code, n) + Keep(code, n)
  {
  }

  lemma LastPart(s: seq<bool>, t: seq<bool>, n: nat)
    requires n == |s| + |t|
    ensures (s + t)[|s|..n] == t
  {
  }

  lemma SlicePrefix(s: seq<bool>, t: seq<bool>, a: nat, b: nat)
    requires a <= b <= |s|
    ensures (s + t)[a..b] == s[a..b]
  {
  }

  lemma {:induction false} BeforeMonotone(code: Code, i: nat, n: nat)
    requires i <= n
    ensures Before(code, i) <= Before(code, n)
  {
    if i < n {
      BeforeMonotone(code, i, n - 1);
    }
  }

  /** Coded bits without error to come before position n. */
  function Rest(r: seq<bool>, n: nat, gap: nat): (rest: nat)
    requires n <= |r| && gap > 0
    ensures rest < gap
  {
    if n == 0 then 0 else Cooled(Rest(r, n - 1, gap), r[n - 1], gap)
  }

  lemma {:induction false} RestSinceError(r: seq<bool>, n: nat, gap: nat)
    requires n <= |r| && gap > 0
    ensures var rest := Rest(r, n, gap); rest > 0 ==> gap - rest <= n && r[n - (gap - rest)]
  {
    if n > 0 {
      RestSinceError(r, n - 1, gap);
    }
  }

  /** Every error among the first n finds no rest left. */
  ghost predicate WellSpaced(r: seq<bool>, n: nat, gap: nat)
    requires n <= |r| && gap > 0
  {
    n == 0 || (WellSpaced(r, n - 1, gap) && (r[n - 1] ==> Rest(r, n - 1, gap) == 0))
  }

  lemma {:induction false} ScatteredIsWellSpaced(r: seq<bool>, n: nat, gap: nat)
    requires n <= |r| && gap > 0 && Scattered(r, gap)
    ensures WellSpaced(r, n, gap)
  {
    if n > 0 {
      ScatteredIsWellSpaced(r, n - 1, gap);
      RestSinceError(r, n - 1, gap);
    }
  }

  lemma {:induction false} NoErrorTooSoon(r: seq<bool>, n: nat, i: nat, gap: nat)
    requires i < n <= |r| && gap > 0 && WellSpaced(r, n, gap) && r[i]
    ensures Rest(r, i, gap) == 0
  {
    if i < n - 1 {
      NoErrorTooSoon(r, n - 1, i, gap);
    }
  }

  // ---- Heights along a path ----

  function Height(code: Code, s: nat, k: nat, rest: nat): int
    requires s < 16
  {
    match code
    case Control => if k % 2 == 0 then Control0(s, rest) else Control1(s, rest)
    case Speech =>
      if k < CLASS1_BITS then (if k % 2 == 0 then FirstClass0(s, rest) else FirstClass1(s, rest))
      else match k % 4
        case 0 => SecondClass0(s, rest)
        case 1 => SecondClass1(s, rest)
        case 2 => SecondClass2(s, rest)
        case _ => SecondClass3(s, rest)
  }

  lemma HeightOfZero(code: Code, k: nat, rest: nat)
    ensures Height(code, 0, k, rest) == 0
  {
  }

  /** What the first n coded bits of a path's difference gain. */
  function Gains(c: seq<bool>, r: seq<bool>, n: nat): int
    requires n <= |c| && n <= |r|
  {
    if n == 0 then 0 else Gains(c, r, n - 1) + Gain(c[n - 1], r[n - 1])
  }

  lemma {:induction false} GainsAreDistance(c: seq<bool>, r: seq<bool>, n: nat)
    requires n <= |c| && n <= |r|
    ensures Gains(c, r, n) == Distance(r[..n], c[..n]) - Distance(r[..n], Zeros(n))
  {
    if n > 0 {
      GainsAreDistance(c, r, n - 1);
      assert r[..n][..n - 1] == r[..n - 1] && c[..n][..n - 1] == c[..n - 1] && Zeros(n)[..n - 1] == Zeros(n - 1);
    }
  }

  // ---- One step ----

  /** Coded bits without error to come after n more bits. */
  function RestAfter(rest: nat, e: seq<bool>, n: nat, gap: nat): (after: nat)
    requires n <= |e| && gap > 0
  {
    if n == 0 then rest else Cooled(RestAfter(rest, e, n - 1, gap), e[n - 1], gap)
  }

  /** Each error finds no rest left. */
  ghost predicate Spaced(rest: nat, e: seq<bool>, n: nat, gap: nat)
    requires n <= |e| && gap > 0
  {
    forall m: nat :: m < n && e[m] ==> RestAfter(rest, e, m, gap) == 0
  }

  /** Register, state before and state after. */
  predicate Shifts(sr: nat, s: nat, n: nat) {
    sr < 32 && s < 16 && 2 * s <= sr <= 2 * s + 1 && n == if sr < 16 then sr else sr - 16
  }

  lemma Unrolled1(o: seq<bool>, t: seq<bool>, rest: nat, e: seq<bool>, gap: nat)
    requires |o| >= |t| >= 1 == |e| && o[..|t|] == t && gap > 0 && Spaced(rest, e, 1, gap)
    ensures Gains(o, e, 1) == Gain(t[0], e[0])
    ensures e[0] ==> rest == 0
    ensures RestAfter(rest, e, 1, gap) == Cooled(rest, e[0], gap)
  {
    assert o[0] == o[..|t|][0] && (e[0] ==> RestAfter(rest, e, 0, gap) == 0);
  }

  lemma Unrolled2(o: seq<bool>, t: seq<bool>, rest: nat, e: seq<bool>, gap: nat)
    requires |o| >= |t| >= 2 == |e| && o[..|t|] == t && gap > 0 && Spaced(rest, e, 2, gap)
    ensures Gains(o, e, 2) == Gain(t[0], e[0]) + Gain(t[1], e[1])
    ensures e[0] ==> rest == 0
    ensures e[1] ==> Cooled(rest, e[0], gap) == 0
    ensures RestAfter(rest, e, 2, gap) == Cooled(Cooled(rest, e[0], gap), e[1], gap)
  {
    assert o[0] == o[..|t|][0] && (e[0] ==> RestAfter(rest, e, 0, gap) == 0);
    assert o[1] == o[..|t|][1] && (e[1] ==> RestAfter(rest, e, 1, gap) == 0);
    assert RestAfter(rest, e, 1, gap) == Cooled(rest, e[0], gap);
    assert Gains(o, e, 1) == Gain(t[0], e[0]);
  }

  lemma Unrolled3(o: seq<bool>, t: seq<bool>, rest: nat, e: seq<bool>, gap: nat)
    requires |o| >= |t| >= 3 == |e| && o[..|t|] == t && gap > 0 && Spaced(rest, e, 3, gap)
    ensures Gains(o, e, 3) == Gain(t[0], e[0]) + Gain(t[1], e[1]) + Gain(t[2], e[2])
    ensures e[0] ==> rest == 0
    ensures e[1] ==> Cooled(rest, e[0], gap) == 0
    ensures e[2] ==> Cooled(Cooled(rest, e[0], gap), e[1], gap) == 0
    ensures RestAfter(rest, e, 3, gap) == Cooled(Cooled(Cooled(rest, e[0], gap), e[1], gap), e[2], gap)
  {
    assert o[0] == o[..|t|][0] && (e[0] ==> RestAfter(rest, e, 0, gap) == 0);
    assert o[1] == o[..|t|][1] && (e[1] ==> RestAfter(rest, e, 1, gap) == 0);
    assert o[2] == o[..|t|][2] && (e[2] ==> RestAfter(rest, e, 2, gap) == 0);
    assert RestAfter(rest, e, 1, gap) == Cooled(rest, e[0], gap);
    assert Gains(o, e, 1) == Gain(t[0], e[0]);
    assert RestAfter(rest, e, 2, gap) == Cooled(Cooled(rest, e[0], gap), e[1], gap);
    assert Gains(o, e, 2) == Gain(t[0], e[0]) + Gain(t[1], e[1]);
  }

  lemma ControlClimb0(sr: nat, s: nat, n: nat, rest: nat, e: seq<bool>)
    requires Shifts(sr, s, n) && rest < CONTROL_GAP && |e| == 2 && Spaced(rest, e, 2, CONTROL_GAP)
    ensures Control0(s, rest) <= Gains(Outputs(sr), e, 2) + Control1(n, RestAfter(rest, e, 2, CONTROL_GAP))
    ensures s == 0 && n == 1 ==> Gains(Outputs(sr), e, 2) + Control1(n, RestAfter(rest, e, 2, CONTROL_GAP)) >= 2
  {
    ControlBitsAre(sr);
    ControlBitsAre(1);
    Unrolled2(Outputs(sr), ControlBits(sr), rest, e, CONTROL_GAP);
    if sr < 16 {
      ControlStep0Low(sr, s, n, rest, e[0], e[1]);
    } else {
      ControlStep0High(sr, s, n, rest, e[0], e[1]);
    }
    ControlStep0Departs(rest, e[0], e[1]);
  }

  lemma ControlClimb1(sr: nat, s: nat, n: nat, rest: nat, e: seq<bool>)
    requires Shifts(sr, s, n) && rest < CONTROL_GAP && |e| == 1 && Spaced(rest, e, 1, CONTROL_GAP)
    ensures Control1(s, rest) <= Gains(Outputs(sr), e, 1) + Control0(n, RestAfter(rest, e, 1, CONTROL_GAP))
    ensures s == 0 && n == 1 ==> Gains(Outputs(sr), e, 1) + Control0(n, RestAfter(rest, e, 1, CONTROL_GAP)) >= 2
  {
    ControlBitsAre(sr);
    ControlBitsAre(1);
    Unrolled1(Outputs(sr), ControlBits(sr), rest, e, CONTROL_GAP);
    if sr < 16 {
      ControlStep1Low(sr, s, n, rest, e[0]);
    } else {
      ControlStep1High(sr, s, n, rest, e[0]);
    }
    ControlStep1Departs(rest, e[0]);
  }

  lemma FirstClimb0(sr: nat, s: nat, n: nat, rest: nat, e: seq<bool>)
    requires Shifts(sr, s, n) && rest < SPEECH_GAP && |e| == 2 && Spaced(rest, e, 2, SPEECH_GAP)
    ensures FirstClass0(s, rest) <= Gains(SpeechOutputs(sr), e, 2) + FirstClass1(n, RestAfter(rest, e, 2, SPEECH_GAP))
    ensures s == 0 && n == 1 ==> Gains(SpeechOutputs(sr), e, 2) + FirstClass1(n, RestAfter(rest, e, 2, SPEECH_GAP)) >= 2
  {
    SpeechBitsAre(sr);
    SpeechBitsAre(1);
    Unrolled2(SpeechOutputs(sr), SpeechBits(sr), rest, e, SPEECH_GAP);
    if sr < 16 {
      FirstStep0Low(sr, s, n, rest, e[0], e[1]);
    } else {
      FirstStep0High(sr, s, n, rest, e[0], e[1]);
    }
    FirstStep0Departs(rest, e[0], e[1]);
  }

  lemma FirstClimb1(sr: nat, s: nat, n: nat, rest: nat, e: seq<bool>)
    requires Shifts(sr, s, n) && rest < SPEECH_GAP && |e| == 1 && Spaced(rest, e, 1, SPEECH_GAP)
    ensures FirstClass1(s, rest) <= Gains(SpeechOutputs(sr), e, 1) + FirstClass0(n, RestAfter(rest, e, 1, SPEECH_GAP))
    ensures s == 0 && n == 1 ==> Gains(SpeechOutputs(sr), e, 1) + FirstClass0(n, RestAfter(rest, e, 1, SPEECH_GAP)) >= 2
  {
    SpeechBitsAre(sr);
    SpeechBitsAre(1);
    Unrolled1(SpeechOutputs(sr), SpeechBits(sr), rest, e, SPEECH_GAP);
    if sr < 16 {
      FirstStep1Low(sr, s, n, rest, e[0]);
    } else {
      FirstStep1High(sr, s, n, rest, e[0]);
    }
    FirstStep1Departs(rest, e[0]);
  }

  lemma BorderClimb(sr: nat, s: nat, n: nat, rest: nat, e: seq<bool>)
    requires Shifts(sr, s, n) && rest < SPEECH_GAP && |e| == 1 && Spaced(rest, e, 1, SPEECH_GAP)
    ensures FirstClass1(s, rest) <= Gains(SpeechOutputs(sr), e, 1) + SecondClass0(n, RestAfter(rest, e, 1, SPEECH_GAP))
    ensures s == 0 && n == 1 ==> Gains(SpeechOutputs(sr), e, 1) + SecondClass0(n, RestAfter(rest, e, 1, SPEECH_GAP)) >= 2
  {
    SpeechBitsAre(sr);
    SpeechBitsAre(1);
    Unrolled1(SpeechOutputs(sr), SpeechBits(sr), rest, e, SPEECH_GAP);
    if sr < 16 {
      BorderStepLow(sr, s, n, rest, e[0]);
    } else {
      BorderStepHigh(sr, s, n, rest, e[0]);
    }
    BorderStepDeparts(rest, e[0]);
  }

  lemma SecondClimb0(sr: nat, s: nat, n: nat, rest: nat, e: seq<bool>)
    requires Shifts(sr, s, n) && rest < SPEECH_GAP && |e| == 3 && Spaced(rest, e, 3, SPEECH_GAP)
    ensures SecondClass0(s, rest) <= Gains(SpeechOutputs(sr), e, 3) + SecondClass1(n, RestAfter(rest, e, 3, SPEECH_GAP))
    ensures s == 0 && n == 1 ==> Gains(SpeechOutputs(sr), e, 3) + SecondClass1(n, RestAfter(rest, e, 3, SPEECH_GAP)) >= 2
  {
    SpeechBitsAre(sr);
    SpeechBitsAre(1);
    Unrolled3(SpeechOutputs(sr), SpeechBits(sr), rest, e, SPEECH_GAP);
    if sr < 16 {
      SecondStep0Low(sr, s, n, rest, e[0], e[1], e[2]);
    } else {
      SecondStep0High(sr, s, n, rest, e[0], e[1], e[2]);
    }
    SecondStep0Departs(rest, e[0], e[1], e[2]);
  }

  lemma SecondClimb1(sr: nat, s: nat, n: nat, rest: nat, e: seq<bool>)
    requires Shifts(sr, s, n) && rest < SPEECH_GAP && |e| == 2 && Spaced(rest, e, 2, SPEECH_GAP)
    ensures SecondClass1(s, rest) <= Gains(SpeechOutputs(sr), e, 2) + SecondClass2(n, RestAfter(rest, e, 2, SPEECH_GAP))
    ensures s == 0 && n == 1 ==> Gains(SpeechOutputs(sr), e, 2) + SecondClass2(n, RestAfter(rest, e, 2, SPEECH_GAP)) >= 2
  {
    SpeechBitsAre(sr);
    SpeechBitsAre(1);
    Unrolled2(SpeechOutputs(sr), SpeechBits(sr), rest, e, SPEECH_GAP);
    if sr < 16 {
      SecondStep1Low(sr, s, n, rest, e[0], e[1]);
    } else {
      SecondStep1High(sr, s, n, rest, e[0], e[1]);
    }
    SecondStep1Departs(rest, e[0], e[1]);
  }

  lemma SecondClimb2(sr: nat, s: nat, n: nat, rest: nat, e: seq<bool>)
    requires Shifts(sr, s, n) && rest < SPEECH_GAP && |e| == 2 && Spaced(rest, e, 2, SPEECH_GAP)
    ensures SecondClass2(s, rest) <= Gains(SpeechOutputs(sr), e, 2) + SecondClass3(n, RestAfter(rest, e, 2, SPEECH_GAP))
    ensures s == 0 && n == 1 ==> Gains(SpeechOutputs(sr), e, 2) + SecondClass3(n, RestAfter(rest, e, 2, SPEECH_GAP)) >= 2
  {
    SpeechBitsAre(sr);
    SpeechBitsAre(1);
    Unrolled2(SpeechOutputs(sr), SpeechBits(sr), rest, e, SPEECH_GAP);
    if sr < 16 {
      SecondStep2Low(sr, s, n, rest, e[0], e[1]);
    } else {
      SecondStep2High(sr, s, n, rest, e[0], e[1]);
    }
    SecondStep2Departs(rest, e[0], e[1]);
  }

  lemma SecondClimb3(sr: nat, s: nat, n: nat, rest: nat, e: seq<bool>)
    requires Shifts(sr, s, n) && rest < SPEECH_GAP && |e| == 2 && Spaced(rest, e, 2, SPEECH_GAP)
    ensures SecondClass3(s, rest) <= Gains(SpeechOutputs(sr), e, 2) + SecondClass0(n, RestAfter(rest, e, 2, SPEECH_GAP))
    ensures s == 0 && n == 1 ==> Gains(SpeechOutputs(sr), e, 2) + SecondClass0(n, RestAfter(rest, e, 2, SPEECH_GAP)) >= 2
  {
    SpeechBitsAre(sr);
    SpeechBitsAre(1);
    Unrolled2(SpeechOutputs(sr), SpeechBits(sr), rest, e, SPEECH_GAP);
    if sr < 16 {
      SecondStep3Low(sr, s, n, rest, e[0], e[1]);
    } else {
      SecondStep3High(sr, s, n, rest, e[0], e[1]);
    }
    SecondStep3Departs(rest, e[0], e[1]);
  }

  /** A step gains what the bound falls from h0 to h1, and a departure from state 0 two at least. */
  predicate Climbs(code: Code, k: nat, sr: nat, s: nat, n: nat, rest: nat, e: seq<bool>, h0: int, h1: int)
    requires Shifts(sr, s, n) && |e| == Keep(code, k)
  {
    var gained := Gains(Outs(code, sr), e, |e|) + h1;
    h0 <= gained && (s == 0 && n == 1 ==> gained >= 2)
  }

  lemma ControlEven(k: nat, sr: nat, s: nat, n: nat, rest: nat, e: seq<bool>, after: nat)
    requires Shifts(sr, s, n) && rest < CONTROL_GAP && |e| == Keep(Control, k) && Spaced(rest, e, |e|, CONTROL_GAP) && k % 2 == 0
    requires after == RestAfter(rest, e, |e|, CONTROL_GAP)
    ensures Climbs(Control, k, sr, s, n, rest, e, Control0(s, rest), Control1(n, after))
  {
    ControlClimb0(sr, s, n, rest, e);
  }

  lemma ControlOdd(k: nat, sr: nat, s: nat, n: nat, rest: nat, e: seq<bool>, after: nat)
    requires Shifts(sr, s, n) && rest < CONTROL_GAP && |e| == Keep(Control, k) && Spaced(rest, e, |e|, CONTROL_GAP) && k % 2 == 1
    requires after == RestAfter(rest, e, |e|, CONTROL_GAP)
    ensures Climbs(Control, k, sr, s, n, rest, e, Control1(s, rest), Control0(n, after))
  {
    ControlClimb1(sr, s, n, rest, e);
  }

  lemma FirstClassEven(k: nat, sr: nat, s: nat, n: nat, rest: nat, e: seq<bool>, after: nat)
    requires Shifts(sr, s, n) && rest < SPEECH_GAP && |e| == Keep(Speech, k)
    requires Spaced(rest, e, |e|, SPEECH_GAP) && k < CLASS1_BITS && k % 2 == 0
    requires after == RestAfter(rest, e, |e|, SPEECH_GAP)
    ensures Climbs(Speech, k, sr, s, n, rest, e, FirstClass0(s, rest), FirstClass1(n, after))
  {
    FirstClimb0(sr, s, n, rest, e);
  }

  lemma FirstClassOdd(k: nat, sr: nat, s: nat, n: nat, rest: nat, e: seq<bool>, after: nat)
    requires Shifts(sr, s, n) && rest < SPEECH_GAP && |e| == Keep(Speech, k) && Spaced(rest, e, |e|, SPEECH_GAP)
    requires k < CLASS1_BITS - 1 && k % 2 == 1
    requires after == RestAfter(rest, e, |e|, SPEECH_GAP)
    ensures Climbs(Speech, k, sr, s, n, rest, e, FirstClass1(s, rest), FirstClass0(n, after))
  {
    FirstClimb1(sr, s, n, rest, e);
  }

  lemma ClassBorder(k: nat, sr: nat, s: nat, n: nat, rest: nat, e: seq<bool>, after: nat)
    requires Shifts(sr, s, n) && rest < SPEECH_GAP && |e| == Keep(Speech, k)
    requires Spaced(rest, e, |e|, SPEECH_GAP) && k == CLASS1_BITS - 1
    requires after == RestAfter(rest, e, |e|, SPEECH_GAP)
    ensures Climbs(Speech, k, sr, s, n, rest, e, FirstClass1(s, rest), SecondClass0(n, after))
  {
    BorderClimb(sr, s, n, rest, e);
  }

  lemma SecondClassPhase0(k: nat, sr: nat, s: nat, n: nat, rest: nat, e: seq<bool>, after: nat)
    requires Shifts(sr, s, n) && rest < SPEECH_GAP && |e| == Keep(Speech, k)
    requires Spaced(rest, e, |e|, SPEECH_GAP) && k >= CLASS1_BITS && k % 4 == 0
    requires after == RestAfter(rest, e, |e|, SPEECH_GAP)
    ensures Climbs(Speech, k, sr, s, n, rest, e, SecondClass0(s, rest), SecondClass1(n, after))
  {
    SecondClimb0(sr, s, n, rest, e);
  }

  lemma SecondClassPhase1(k: nat, sr: nat, s: nat, n: nat, rest: nat, e: seq<bool>, after: nat)
    requires Shifts(sr, s, n) && rest < SPEECH_GAP && |e| == Keep(Speech, k)
    requires Spaced(rest, e, |e|, SPEECH_GAP) && k >= CLASS1_BITS && k % 4 == 1
    requires after == RestAfter(rest, e, |e|, SPEECH_GAP)
    ensures Climbs(Speech, k, sr, s, n, rest, e, SecondClass1(s, rest), SecondClass2(n, after))
  {
    SecondClimb1(sr, s, n, rest, e);
  }

  lemma SecondClassPhase2(k: nat, sr: nat, s: nat, n: nat, rest: nat, e: seq<bool>, after: nat)
    requires Shifts(sr, s, n) && rest < SPEECH_GAP && |e| == Keep(Speech, k)
    requires Spaced(rest, e, |e|, SPEECH_GAP) && k >= CLASS1_BITS && k % 4 == 2
    requires after == RestAfter(rest, e, |e|, SPEECH_GAP)
    ensures Climbs(Speech, k, sr, s, n, rest, e, SecondClass2(s, rest), SecondClass3(n, after))
  {
    SecondClimb2(sr, s, n, rest, e);
  }

  lemma SecondClassPhase3(k: nat, sr: nat, s: nat, n: nat, rest: nat, e: seq<bool>, after: nat)
    requires Shifts(sr, s, n) && rest < SPEECH_GAP && |e| == Keep(Speech, k)
    requires Spaced(rest, e, |e|, SPEECH_GAP) && k >= CLASS1_BITS && k % 4 == 3
    requires after == RestAfter(rest, e, |e|, SPEECH_GAP)
    ensures Climbs(Speech, k, sr, s, n, rest, e, SecondClass3(s, rest), SecondClass0(n, after))
  {
    SecondClimb3(sr, s, n, rest, e);
  }

  /** h0 and h1 bound what the paths gain from states s and n on. */
  predicate BoundsStep(code: Code, k: nat, s: nat, n: nat, rest: nat, after: nat, h0: int, h1: int) {
    s < 16 && n < 16 && h0 == Height(code, s, k, rest) && h1 == Height(code, n, k + 1, after)
  }

  lemma ControlEvenClimbs(k: nat, sr: nat, s: nat, n: nat, rest: nat, e: seq<bool>, after: nat, h0: int, h1: int)
    requires Shifts(sr, s, n) && rest < CONTROL_GAP && |e| == Keep(Control, k) && Spaced(rest, e, |e|, CONTROL_GAP) && k % 2 == 0
    requires after == RestAfter(rest, e, |e|, CONTROL_GAP) && BoundsStep(Control, k, s, n, rest, after, h0, h1)
    ensures Climbs(Control, k, sr, s, n, rest, e, h0, h1)
  {
    ControlEven(k, sr, s, n, rest, e, after);
  }

  lemma ControlOddClimbs(k: nat, sr: nat, s: nat, n: nat, rest: nat, e: seq<bool>, after: nat, h0: int, h1: int)
    requires Shifts(sr, s, n) && rest < CONTROL_GAP && |e| == Keep(Control, k) && Spaced(rest, e, |e|, CONTROL_GAP) && k % 2 == 1
    requires after == RestAfter(rest, e, |e|, CONTROL_GAP) && BoundsStep(Control, k, s, n, rest, after, h0, h1)
    ensures Climbs(Control, k, sr, s, n, rest, e, h0, h1)
  {
    ControlOdd(k, sr, s, n, rest, e, after);
  }

  lemma FirstClassEvenHeights(k: nat, s: nat, n: nat, rest: nat, after: nat, h0: int, h1: int)
    requires k < CLASS1_BITS && k % 2 == 0 && BoundsStep(Speech, k, s, n, rest, after, h0, h1)
    ensures h0 == FirstClass0(s, rest) && h1 == FirstClass1(n, after)
  {
  }

  lemma FirstClassEvenClimbs(k: nat, sr: nat, s: nat, n: nat, rest: nat, e: seq<bool>, after: nat, h0: int, h1: int)
    requires Shifts(sr, s, n) && rest < SPEECH_GAP && |e| == Keep(Speech, k)
    requires Spaced(rest, e, |e|, SPEECH_GAP) && k < CLASS1_BITS && k % 2 == 0
    requires after == RestAfter(rest, e, |e|, SPEECH_GAP) && BoundsStep(Speech, k, s, n, rest, after, h0, h1)
    ensures Climbs(Speech, k, sr, s, n, rest, e, h0, h1)
  {
    FirstClassEvenHeights(k, s, n, rest, after, h0, h1);
    FirstClassEven(k, sr, s, n, rest, e, after);
  }

  lemma FirstClassOddHeights(k: nat, s: nat, n: nat, rest: nat, after: nat, h0: int, h1: int)
    requires k < CLASS1_BITS - 1 && k % 2 == 1 && BoundsStep(Speech, k, s, n, rest, after, h0, h1)
    ensures h0 == FirstClass1(s, rest) && h1 == FirstClass0(n, after)
  {
  }

  lemma FirstClassOddClimbs(k: nat, sr: nat, s: nat, n: nat, rest: nat, e: seq<bool>, after: nat, h0: int, h1: int)
    requires Shifts(sr, s, n) && rest < SPEECH_GAP && |e| == Keep(Speech, k) && Spaced(rest, e, |e|, SPEECH_GAP)
    requires k < CLASS1_BITS - 1 && k % 2 == 1
    requires after == RestAfter(rest, e, |e|, SPEECH_GAP) && BoundsStep(Speech, k, s, n, rest, after, h0, h1)
    ensures Climbs(Speech, k, sr, s, n, rest, e, h0, h1)
  {
    FirstClassOddHeights(k, s, n, rest, after, h0, h1);
    FirstClassOdd(k, sr, s, n, rest, e, after);
  }

  lemma BorderHeights(k: nat, s: nat, n: nat, rest: nat, after: nat, h0: int, h1: int)
    requires k == CLASS1_BITS - 1 && BoundsStep(Speech, k, s, n, rest, after, h0, h1)
    ensures h0 == FirstClass1(s, rest) && h1 == SecondClass0(n, after)
  {
  }

  lemma ClassBorderClimbs(k: nat, sr: nat, s: nat, n: nat, rest: nat, e: seq<bool>, after: nat, h0: int, h1: int)
    requires Shifts(sr, s, n) && rest < SPEECH_GAP && |e| == Keep(Speech, k)
    requires Spaced(rest, e, |e|, SPEECH_GAP) && k == CLASS1_BITS - 1
    requires after == RestAfter(rest, e, |e|, SPEECH_GAP) && BoundsStep(Speech, k, s, n, rest, after, h0, h1)
    ensures Climbs(Speech, k, sr, s, n, rest, e, h0, h1)
  {
    BorderHeights(k, s, n, rest, after, h0, h1);
    ClassBorder(k, sr, s, n, rest, e, after);
  }

  lemma SecondClassPhase0Climbs(k: nat, sr: nat, s: nat, n: nat, rest: nat, e: seq<bool>, after: nat, h0: int, h1: int)
    requires Shifts(sr, s, n) && rest < SPEECH_GAP && |e| == Keep(Speech, k)
    requires Spaced(rest, e, |e|, SPEECH_GAP) && k >= CLASS1_BITS && k % 4 == 0
    requires after == RestAfter(rest, e, |e|, SPEECH_GAP) && BoundsStep(Speech, k, s, n, rest, after, h0, h1)
    ensures Climbs(Speech, k, sr, s, n, rest, e, h0, h1)
  {
    SecondClassPhase0(k, sr, s, n, rest, e, after);
  }

  lemma SecondClassPhase1Climbs(k: nat, sr: nat, s: nat, n: nat, rest: nat, e: seq<bool>, after: nat, h0: int, h1: int)
    requires Shifts(sr, s, n) && rest < SPEECH_GAP && |e| == Keep(Speech, k)
    requires Spaced(rest, e, |e|, SPEECH_GAP) && k >= CLASS1_BITS && k % 4 == 1
    requires after == RestAfter(rest, e, |e|, SPEECH_GAP) && BoundsStep(Speech, k, s, n, rest, after, h0, h1)
    ensures Climbs(Speech, k, sr, s, n, rest, e, h0, h1)
  {
    SecondClassPhase1(k, sr, s, n, rest, e, after);
  }

  lemma SecondClassPhase2Climbs(k: nat, sr: nat, s: nat, n: nat, rest: nat, e: seq<bool>, after: nat, h0: int, h1: int)
    requires Shifts(sr, s, n) && rest < SPEECH_GAP && |e| == Keep(Speech, k)
    requires Spaced(rest, e, |e|, SPEECH_GAP) && k >= CLASS1_BITS && k % 4 == 2
    requires after == RestAfter(rest, e, |e|, SPEECH_GAP) && BoundsStep(Speech, k, s, n, rest, after, h0, h1)
    ensures Climbs(Speech, k, sr, s, n, rest, e, h0, h1)
  {
    SecondClassPhase2(k, sr, s, n, rest, e, after);
  }

  lemma SecondClassPhase3Climbs(k: nat, sr: nat, s: nat, n: nat, rest: nat, e: seq<bool>, after: nat, h0: int, h1: int)
    requires Shifts(sr, s, n) && rest < SPEECH_GAP && |e| == Keep(Speech, k)
    requires Spaced(rest, e, |e|, SPEECH_GAP) && k >= CLASS1_BITS && k % 4 == 3
    requires after == RestAfter(rest, e, |e|, SPEECH_GAP) && BoundsStep(Speech, k, s, n, rest, after, h0, h1)
    ensures Climbs(Speech, k, sr, s, n, rest, e, h0, h1)
  {
    SecondClassPhase3(k, sr, s, n, rest, e, after);
  }

  lemma StepClimbs(code: Code, k: nat, sr: nat, s: nat, n: nat, rest: nat, e: seq<bool>, after: nat, h0: int, h1: int)
    requires Shifts(sr, s, n) && rest < Gap(code) && |e| == Keep(code, k) && Spaced(rest, e, |e|, Gap(code))
    requires after == RestAfter(rest, e, |e|, Gap(code)) && BoundsStep(code, k, s, n, rest, after, h0, h1)
    ensures Climbs(code, k, sr, s, n, rest, e, h0, h1)
  {
    if code.Control? && k % 2 == 0 {
      ControlEvenClimbs(k, sr, s, n, rest, e, after, h0, h1);
    } else if code.Control? {
      ControlOddClimbs(k, sr, s, n, rest, e, after, h0, h1);
    } else if k == CLASS1_BITS - 1 {
      ClassBorderClimbs(k, sr, s, n, rest, e, after, h0, h1);
    } else if k < CLASS1_BITS && k % 2 == 0 {
      FirstClassEvenClimbs(k, sr, s, n, rest, e, after, h0, h1);
    } else if k < CLASS1_BITS {
      FirstClassOddClimbs(k, sr, s, n, rest, e, after, h0, h1);
    } else if k % 4 == 0 {
      SecondClassPhase0Climbs(k, sr, s, n, rest, e, after, h0, h1);
    } else if k % 4 == 1 {
      SecondClassPhase1Climbs(k, sr, s, n, rest, e, after, h0, h1);
    } else if k % 4 == 2 {
      SecondClassPhase2Climbs(k, sr, s, n, rest, e, after, h0, h1);
    } else {
      SecondClassPhase3Climbs(k, sr, s, n, rest, e, after, h0, h1);
    }
  }

  // ---- A whole path ----

  /** Gains and gaps of bits b to d depend on these bits and on the gap before them alone. */
  lemma {:induction false} GainsOfStep(c: seq<bool>, r: seq<bool>, b: nat, d: nat, o: seq<bool>, e: seq<bool>, n: nat, gap: nat)
    requires n <= |o| && n <= |e| && d == b + n && d <= |c| && d <= |r| && gap > 0 && c[b..d] == o[..n] && r[b..d] == e[..n]
    ensures Gains(c, r, d) == Gains(c, r, b) + Gains(o, e, n)
    ensures Rest(r, d, gap) == RestAfter(Rest(r, b, gap), e, n, gap)
  {
    if n > 0 {
      LastOfSlice(c, b, o, n);
      LastOfSlice(r, b, e, n);
      GainsOfStep(c, r, b, d - 1, o, e, n - 1, gap);
    }
  }

  lemma LastOfSlice(c: seq<bool>, b: nat, o: seq<bool>, n: nat)
    requires 0 < n <= |o| && b + n <= |c| && c[b..b + n] == o[..n]
    ensures c[b..b + (n - 1)] == o[..n - 1] && c[b + n - 1] == o[n - 1]
  {
    assert c[b..b + n][..n - 1] == c[b..b + (n - 1)] && c[b..b + n][n - 1] == c[b + n - 1];
  }

  lemma SliceIsSpaced(r: seq<bool>, b: nat, e: seq<bool>, gap: nat)
    requires b + |e| <= |r| && e == r[b..b + |e|] && gap > 0 && WellSpaced(r, |r|, gap)
    ensures Spaced(Rest(r, b, gap), e, |e|, gap)
  {
    forall m: nat | m < |e| && e[m]
      ensures RestAfter(Rest(r, b, gap), e, m, gap) == 0
    {
      assert r[b..b + m] == e[..m];
      GainsOfStep(r, r, b, b + m, e, e, m, gap);
      NoErrorTooSoon(r, |r|, b + m, gap);
    }
  }

  lemma RegisterShifts(x: seq<bool>, k: nat, j: nat)
    requires j == k + 1 <= |x|
    ensures Shifts(RegisterAt(x, k), StateAfter(x[..k]), StateAfter(x[..j]))
    ensures StateAfter(x[..k]) == 0 && x[k] ==> StateAfter(x[..j]) == 1
  {
    assert x[..j] == x[..k] + [x[k]];
    RegisterExtend(x[..k], x[k]);
  }

  /** Bound on what the rest of the path gains from step k on. */
  function Bound(code: Code, r: seq<bool>, x: seq<bool>, k: nat): int
    requires k <= |x| && Before(code, k) <= |r|
  {
    Height(code, StateAfter(x[..k]), k, Rest(r, Before(code, k), Gap(code)))
  }

  /** The step whose coded bits start at b, between bounds h0 and h1. */
  lemma LocalClimb(code: Code, c: seq<bool>, r: seq<bool>, b: nat, d: nat, k: nat, sr: nat, s: nat, n: nat, h0: int, h1: int)
    requires d == b + Keep(code, k) <= |r| == |c| && WellSpaced(r, |r|, Gap(code)) && Shifts(sr, s, n)
    requires c[b..d] == KeptOuts(code, sr, k)
    requires h0 == Height(code, s, k, Rest(r, b, Gap(code))) && h1 == Height(code, n, k + 1, Rest(r, d, Gap(code)))
    ensures h0 <= Gains(c, r, d) - Gains(c, r, b) + h1
    ensures s == 0 && n == 1 ==> Gains(c, r, d) - Gains(c, r, b) + h1 >= 2
  {
    var e, rest, after := r[b..d], Rest(r, b, Gap(code)), Rest(r, d, Gap(code));
    StepIsLocal(Gap(code), c, r, b, d, Outs(code, sr), e, rest, after);
    Climbed(code, k, sr, s, n, rest, e, after, h0, h1);
  }

  /** Gains and gaps of a step depend on its outputs and on the gap before it alone. */
  lemma StepIsLocal(gap: nat, c: seq<bool>, r: seq<bool>, b: nat, d: nat, o: seq<bool>, e: seq<bool>, rest: nat, after: nat)
    requires gap > 0 && b <= d <= |r| == |c| && WellSpaced(r, |r|, gap) && e == r[b..d] && |e| <= |o| && c[b..d] == o[..|e|]
    requires rest == Rest(r, b, gap) && after == Rest(r, d, gap)
    ensures Gains(c, r, d) == Gains(c, r, b) + Gains(o, e, |e|)
    ensures Spaced(rest, e, |e|, gap) && after == RestAfter(rest, e, |e|, gap)
  {
    GainsOfStep(c, r, b, d, o, e, |e|, gap);
    SliceIsSpaced(r, b, e, gap);
  }

  lemma Climbed(code: Code, k: nat, sr: nat, s: nat, n: nat, rest: nat, e: seq<bool>, after: nat, h0: int, h1: int)
    requires Shifts(sr, s, n) && rest < Gap(code) && |e| == Keep(code, k) && Spaced(rest, e, |e|, Gap(code))
    requires after == RestAfter(rest, e, |e|, Gap(code)) && h0 == Height(code, s, k, rest) && h1 == Height(code, n, k + 1, after)
    ensures h0 <= Gains(Outs(code, sr), e, |e|) + h1 && (s == 0 && n == 1 ==> Gains(Outs(code, sr), e, |e|) + h1 >= 2)
  {
    StepClimbs(code, k, sr, s, n, rest, e, after, h0, h1);
  }

  /** h lists the bounds of the first n steps. */
  ghost predicate AreBounds(code: Code, r: seq<bool>, x: seq<bool>, h: seq<int>, n: nat)
    requires n <= |h| <= |x| + 1
  {
    n == 0 || (AreBounds(code, r, x, h, n - 1) && IsBound(code, r, x, h[n - 1], n - 1))
  }

  predicate IsBound(code: Code, r: seq<bool>, x: seq<bool>, v: int, k: nat)
    requires k <= |x|
  {
    Before(code, k) <= |r| && v == Bound(code, r, x, k)
  }

  lemma {:induction false} ListBounds(code: Code, r: seq<bool>, x: seq<bool>, n: nat) returns (h: seq<int>)
    requires |r| == Before(code, |x|) && n <= |x| + 1
    ensures |h| == n && AreBounds(code, r, x, h, n)
  {
    if n == 0 {
      h := [];
    } else {
      var g := ListBounds(code, r, x, n - 1);
      BeforeMonotone(code, n - 1, |x|);
      h := g + [Bound(code, r, x, n - 1)];
      LongerBounds(code, r, x, g, h, n - 1);
    }
  }

  lemma {:induction false} LongerBounds(code: Code, r: seq<bool>, x: seq<bool>, g: seq<int>, h: seq<int>, n: nat)
    requires n <= |g| <= |h| <= |x| + 1 && h[..|g|] == g && AreBounds(code, r, x, g, n)
    ensures AreBounds(code, r, x, h, n)
  {
    if n > 0 {
      LongerBounds(code, r, x, g, h, n - 1);
      assert h[n - 1] == h[..|g|][n - 1];
    }
  }

  lemma {:induction false} BoundAt(code: Code, r: seq<bool>, x: seq<bool>, h: seq<int>, n: nat, k: nat, b: nat, s: nat)
    requires k < n <= |h| <= |x| + 1 && AreBounds(code, r, x, h, n) && b == Before(code, k) && s == StateAfter(x[..k])
    ensures b <= |r| && h[k] == Height(code, s, k, Rest(r, b, Gap(code)))
  {
    if k < n - 1 {
      BoundAt(code, r, x, h, n - 1, k, b, s);
    }
  }

  lemma PathStepClimbs(code: Code, c: seq<bool>, r: seq<bool>, x: seq<bool>, h: seq<int>, k: nat, j: nat)
    requires j == k + 1 <= |x| && c == Coded(code, x) && |r| == |c| && WellSpaced(r, |r|, Gap(code))
    requires |h| == |x| + 1 && AreBounds(code, r, x, h, |h|)
    ensures Before(code, k) <= Before(code, j) <= |r|
    ensures h[k] <= Gains(c, r, Before(code, j)) - Gains(c, r, Before(code, k)) + h[j]
    ensures StateAfter(x[..k]) == 0 && x[k] ==> Gains(c, r, Before(code, j)) - Gains(c, r, Before(code, k)) + h[j] >= 2
  {
    var sr, s, n := RegisterAt(x, k), StateAfter(x[..k]), StateAfter(x[..j]);
    CodedAt(code, x, c, k, j, KeptOuts(code, sr, k));
    RegisterShifts(x, k, j);
    BoundAt(code, r, x, h, |h|, k, Before(code, k), s);
    BoundAt(code, r, x, h, |h|, j, Before(code, j), n);
    LocalClimb(code, c, r, Before(code, k), Before(code, j), k, sr, s, n, h[k], h[j]);
  }

  lemma {:induction false} PathClimbs(code: Code, c: seq<bool>, r: seq<bool>, x: seq<bool>, h: seq<int>, k: nat, n: nat)
    requires k <= n <= |x| && c == Coded(code, x) && |r| == |c| && WellSpaced(r, |r|, Gap(code))
    requires |h| == |x| + 1 && AreBounds(code, r, x, h, |h|)
    ensures Before(code, k) <= Before(code, n) <= |r|
    ensures h[k] <= Gains(c, r, Before(code, n)) - Gains(c, r, Before(code, k)) + h[n]
    decreases n, 1
  {
    BeforeMonotone(code, k, n);
    BeforeMonotone(code, n, |x|);
    if k < n {
      LongerClimb(code, c, r, x, h, k, n - 1, n);
    }
  }

  lemma {:induction false} LongerClimb(code: Code, c: seq<bool>, r: seq<bool>, x: seq<bool>, h: seq<int>, k: nat, m: nat, n: nat)
    requires k <= m && n == m + 1 <= |x| && c == Coded(code, x) && |r| == |c| && WellSpaced(r, |r|, Gap(code))
    requires |h| == |x| + 1 && AreBounds(code, r, x, h, |h|)
    ensures Before(code, k) <= Before(code, n) <= |r|
    ensures h[k] <= Gains(c, r, Before(code, n)) - Gains(c, r, Before(code, k)) + h[n]
    decreases n, 0
  {
    PathClimbs(code, c, r, x, h, k, m);
    PathStepClimbs(code, c, r, x, h, m, n);
  }

  lemma {:induction false} ZerosGainNothing(code: Code, c: seq<bool>, r: seq<bool>, x: seq<bool>, k: nat)
    requires k <= |x| && c == Coded(code, x) && |r| == |c| && forall i :: 0 <= i < k ==> !x[i]
    ensures Before(code, k) <= |r| && Gains(c, r, Before(code, k)) == 0
  {
    BeforeMonotone(code, k, |x|);
    if k > 0 {
      ZerosGainNothing(code, c, r, x, k - 1);
      var o := QuietStep(code, c, x, k - 1, k);
      LocalZero(c, r, Before(code, k - 1), Before(code, k), o);
    }
  }

  /** A step that all zeros lead to puts out zeros. */
  lemma QuietStep(code: Code, c: seq<bool>, x: seq<bool>, k: nat, j: nat) returns (o: seq<bool>)
    requires j == k + 1 <= |x| && c == Coded(code, x) && forall i :: 0 <= i < j ==> !x[i]
    ensures Before(code, k) <= Before(code, j) == Before(code, k) + |o| <= |c| && c[Before(code, k)..Before(code, j)] == o
    ensures Quiet(o, |o|)
  {
    ZeroPrefix(x, j);
    NoOutputs(code, k, RegisterAt(x, k));
    o := KeptOuts(code, RegisterAt(x, k), k);
    CodedAt(code, x, c, k, j, o);
  }

  lemma ZeroPrefix(x: seq<bool>, k: nat)
    requires k <= |x| && forall i :: 0 <= i < k ==> !x[i]
    ensures Register(x[..k]) == 0
  {
    ZerosStayInZero(k);
    assert x[..k] == Zeros(k);
  }

  lemma LocalZero(c: seq<bool>, r: seq<bool>, b: nat, d: nat, o: seq<bool>)
    requires d == b + |o| <= |c| == |r| && c[b..d] == o && Quiet(o, |o|)
    ensures Gains(c, r, d) == Gains(c, r, b)
  {
    GainsOfStep(c, r, b, d, o, r[b..d], |o|, 1);
    NoOutputGains(o, r[b..d], |o|);
  }

  /** The first n bits are 0. */
  predicate Quiet(o: seq<bool>, n: nat)
    requires n <= |o|
  {
    n == 0 || (Quiet(o, n - 1) && !o[n - 1])
  }

  lemma {:induction false} NoOutputGains(o: seq<bool>, e: seq<bool>, n: nat)
    requires n <= |e| && n <= |o| && Quiet(o, n)
    ensures Gains(o, e, n) == 0
  {
    if n > 0 {
      NoOutputGains(o, e, n - 1);
    }
  }

  lemma NoOutputs(code: Code, k: nat, z: nat)
    requires z == 0
    ensures Quiet(KeptOuts(code, z, k), Keep(code, k))
  {
    ZeroOutputs(code);
    QuietStart(Outs(code, 0), KeptOuts(code, 0, k), Keep(code, k));
  }

  lemma ZeroOutputs(code: Code)
    ensures !Outs(code, 0)[0] && !Outs(code, 0)[1] && !Outs(code, 0)[2]
  {
  }

  lemma {:induction false} QuietStart(o: seq<bool>, t: seq<bool>, n: nat)
    requires n <= |t| <= 3 <= |o| && o[..|t|] == t && !o[0] && !o[1] && !o[2]
    ensures Quiet(t, n)
  {
    if n > 0 {
      QuietStart(o, t, n - 1);
      assert t[n - 1] == o[..|t|][n - 1];
    }
  }

  /** A path that departs in step i gains two at least. */
  lemma DepartureGains(code: Code, c: seq<bool>, r: seq<bool>, x: seq<bool>, i: nat, j: nat)
    requires j == i + 1 <= |x| && c == Coded(code, x) && |r| == |c| && WellSpaced(r, |r|, Gap(code))
    requires Terminated(x) && x[i] && forall k :: 0 <= k < i ==> !x[k]
    ensures Gains(c, r, |r|) >= 2
  {
    ZerosGainNothing(code, c, r, x, i);
    ZeroPrefix(x, i);
    var h := ListBounds(code, r, x, |x| + 1);
    PathStepClimbs(code, c, r, x, h, i, j);
    PathClimbs(code, c, r, x, h, j, |x|);
    EndBound(code, r, x, h);
  }

  lemma EndBound(code: Code, r: seq<bool>, x: seq<bool>, h: seq<int>)
    requires |h| == |x| + 1 && |r| == Before(code, |x|) && AreBounds(code, r, x, h, |h|) && Terminated(x)
    ensures h[|x|] == 0
  {
    assert x[..|x|] == x;
    BoundAt(code, r, x, h, |h|, |x|, |r|, StateAfter(x[..|x|]));
    HeightOfZero(code, |x|, Rest(r, |r|, Gap(code)));
  }

  /** Scattered errors are nearer to the zero word than to any other codeword, by two at least. */
  lemma ScatteredIsNearest(code: Code, r: seq<bool>, x: seq<bool>)
    requires |r| == Before(code, |x|) && Scattered(r, Gap(code)) && Terminated(x) && exists j :: 0 <= j < |x| && x[j]
    ensures Distance(r, Coded(code, x)) >= Distance(r, Zeros(|r|)) + 2
  {
    var i, c := FirstOne(x, 0), Coded(code, x);
    ScatteredIsWellSpaced(r, |r|, Gap(code));
    DepartureGains(code, c, r, x, i, i + 1);
    GainsAreDistance(c, r, |r|);
    assert r[..|r|] == r && c[..|r|] == c;
  }
}
