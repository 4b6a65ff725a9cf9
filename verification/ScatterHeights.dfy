/**
 * Lower bounds on what a path of a code still gains over the sent one when errors are far apart:
 * each state's bound rises with the number of coded bits that must still pass before the next error.
 */
module ScatterHeights {
  import opened BitSeq
  import opened Trellis
  import opened ConvCode
  import opened SpeechCode

  /** A bound of at least lo that rises by one at two thresholds. */
  function Raised(rest: nat, lo: int, first: nat, second: nat): int {
    lo + (if rest >= first then 1 else 0) + (if rest >= second then 1 else 0)
  }

  /** What one coded bit of a path's difference gains: it helps, unless an error hits it. */
  function Gain(bit: bool, err: bool): int {
    if bit then (if err then -1 else 1) else 0
  }

  /** Coded bits without error to come, after one more bit. */
  function Cooled(rest: nat, err: bool, gap: nat): nat
    requires gap > 0
  {
    if err then gap - 1 else if rest == 0 then 0 else rest - 1
  }

  const CONTROL_GAP: nat := 11
  const SPEECH_GAP: nat := 17

  /** Before a step that keeps two outputs. */
  function Control0(s: nat, rest: nat): int
    requires s < 16
  {
    match s
    case 0 => 0
    case 1 => Raised(rest, 1, 6, 6)
    case 2 => Raised(rest, 1, 11, 11)
    case 3 => Raised(rest, 0, 5, 5)
    case 4 => Raised(rest, 0, 3, 3)
    case 5 => Raised(rest, 1, 11, 11)
    case 6 => Raised(rest, 1, 11, 11)
    case 7 => Raised(rest, 0, 2, 2)
    case 8 => Raised(rest, 0, 8, 8)
    case 9 => Raised(rest, 1, 6, 6)
    case 10 => Raised(rest, 1, 11, 11)
    case 11 => Raised(rest, 0, 6, 6)
    case 12 => Raised(rest, 0, 3, 3)
    case 13 => Raised(rest, 1, 11, 11)
    case 14 => Raised(rest, 1, 11, 11)
    case _ => Raised(rest, 0, 2, 2)
  }

  /** Before a step that keeps one output. */
  function Control1(s: nat, rest: nat): int
    requires s < 16
  {
    match s
    case 0 => 0
    case 1 => Raised(rest, 0, 6, 6)
    case 2 => Raised(rest, 0, 4, 4)
    case 3 => Raised(rest, 0, 3, 3)
    case 4 => Raised(rest, 0, 9, 9)
    case 5 => Raised(rest, 0, 7, 7)
    case 6 => Raised(rest, 0, 4, 4)
    case 7 => Raised(rest, 0, 3, 3)
    case 8 => Raised(rest, -1, 1, 1)
    case 9 => Raised(rest, 1, 11, 11)
    case 10 => Raised(rest, 1, 11, 11)
    case 11 => Raised(rest, 1, 11, 11)
    case 12 => Raised(rest, 1, 9, 9)
    case 13 => Raised(rest, 1, 11, 11)
    case 14 => Raised(rest, 1, 11, 11)
    case _ => Raised(rest, 1, 11, 11)
  }

  /** Class 1, before a step that keeps two outputs. */
  function FirstClass0(s: nat, rest: nat): int
    requires s < 16
  {
    match s
    case 0 => 0
    case 1 => Raised(rest, 1, 15, 16)
    case 2 => Raised(rest, 0, 1, 13)
    case 3 => Raised(rest, 0, 6, 6)
    case 4 => Raised(rest, 0, 4, 16)
    case 5 => Raised(rest, 0, 7, 17)
    case 6 => Raised(rest, 1, 12, 13)
    case 7 => Raised(rest, 1, 6, 15)
    case 8 => Raised(rest, 0, 9, 9)
    case 9 => Raised(rest, 0, 10, 17)
    case 10 => Raised(rest, 0, 2, 13)
    case 11 => Raised(rest, 0, 6, 6)
    case 12 => Raised(rest, -1, 3, 3)
    case 13 => Raised(rest, 1, 9, 17)
    case 14 => Raised(rest, 1, 12, 13)
    case _ => Raised(rest, 1, 6, 15)
  }

  /** Class 1, before a step that keeps one output. */
  function FirstClass1(s: nat, rest: nat): int
    requires s < 16
  {
    match s
    case 0 => 0
    case 1 => Raised(rest, 0, 7, 7)
    case 2 => Raised(rest, 0, 8, 17)
    case 3 => Raised(rest, 1, 13, 14)
    case 4 => Raised(rest, 0, 11, 17)
    case 5 => Raised(rest, 0, 3, 14)
    case 6 => Raised(rest, -1, 4, 4)
    case 7 => Raised(rest, 1, 7, 16)
    case 8 => Raised(rest, -1, 1, 1)
    case 9 => Raised(rest, 0, 2, 14)
    case 10 => Raised(rest, 0, 5, 17)
    case 11 => Raised(rest, 1, 7, 16)
    case 12 => Raised(rest, 0, 10, 11)
    case 13 => Raised(rest, 0, 7, 7)
    case 14 => Raised(rest, 0, 4, 10)
    case _ => Raised(rest, 1, 13, 14)
  }

  /** Class 2, phase 0 of 4. */
  function SecondClass0(s: nat, rest: nat): int
    requires s < 16
  {
    match s
    case 0 => 0
    case 1 => Raised(rest, 4, 12, 17)
    case 2 => Raised(rest, 4, 7, 16)
    case 3 => Raised(rest, 3, 9, 12)
    case 4 => Raised(rest, 2, 5, 5)
    case 5 => Raised(rest, 3, 9, 14)
    case 6 => Raised(rest, 2, 7, 7)
    case 7 => Raised(rest, 3, 9, 12)
    case 8 => Raised(rest, 1, 3, 3)
    case 9 => Raised(rest, 4, 9, 14)
    case 10 => Raised(rest, 3, 7, 14)
    case 11 => Raised(rest, 2, 9, 9)
    case 12 => Raised(rest, 1, 5, 5)
    case 13 => Raised(rest, 3, 12, 17)
    case 14 => Raised(rest, 1, 7, 7)
    case _ => Raised(rest, 2, 9, 9)
  }

  /** Class 2, phase 1 of 4. */
  function SecondClass1(s: nat, rest: nat): int
    requires s < 16
  {
    match s
    case 0 => 0
    case 1 => Raised(rest, 3, 13, 15)
    case 2 => Raised(rest, 3, 6, 11)
    case 3 => Raised(rest, 3, 9, 15)
    case 4 => Raised(rest, 2, 4, 11)
    case 5 => Raised(rest, 3, 3, 13)
    case 6 => Raised(rest, 1, 6, 6)
    case 7 => Raised(rest, 3, 9, 15)
    case 8 => Raised(rest, 0, 2, 2)
    case 9 => Raised(rest, 4, 13, 17)
    case 10 => Raised(rest, 3, 6, 11)
    case 11 => Raised(rest, 3, 9, 15)
    case 12 => Raised(rest, 0, 4, 4)
    case 13 => Raised(rest, 3, 13, 15)
    case 14 => Raised(rest, 1, 6, 6)
    case _ => Raised(rest, 3, 9, 15)
  }

  /** Class 2, phase 2 of 4. */
  function SecondClass2(s: nat, rest: nat): int
    requires s < 16
  {
    match s
    case 0 => 0
    case 1 => Raised(rest, 3, 11, 13)
    case 2 => Raised(rest, 4, 11, 17)
    case 3 => Raised(rest, 3, 11, 13)
    case 4 => Raised(rest, 2, 4, 4)
    case 5 => Raised(rest, 3, 9, 13)
    case 6 => Raised(rest, 2, 7, 13)
    case 7 => Raised(rest, 3, 11, 13)
    case 8 => Raised(rest, 0, 2, 2)
    case 9 => Raised(rest, 3, 9, 13)
    case 10 => Raised(rest, 3, 1, 11)
    case 11 => Raised(rest, 3, 11, 13)
    case 12 => Raised(rest, 0, 4, 4)
    case 13 => Raised(rest, 3, 11, 13)
    case 14 => Raised(rest, 2, 7, 13)
    case _ => Raised(rest, 3, 11, 13)
  }

  /** Class 2, phase 3 of 4. */
  function SecondClass3(s: nat, rest: nat): int
    requires s < 16
  {
    match s
    case 0 => 0
    case 1 => Raised(rest, 3, 11, 14)
    case 2 => Raised(rest, 3, 7, 11)
    case 3 => Raised(rest, 3, 9, 11)
    case 4 => Raised(rest, 3, 5, 11)
    case 5 => Raised(rest, 3, 9, 16)
    case 6 => Raised(rest, 2, 7, 7)
    case 7 => Raised(rest, 2, 9, 11)
    case 8 => Raised(rest, 0, 2, 2)
    case 9 => Raised(rest, 4, 9, 17)
    case 10 => Raised(rest, 3, 7, 11)
    case 11 => Raised(rest, 3, 9, 11)
    case 12 => Raised(rest, 1, 5, 5)
    case 13 => Raised(rest, 2, 11, 11)
    case 14 => Raised(rest, 2, 7, 7)
    case _ => Raised(rest, 2, 9, 11)
  }

  // ---- Outputs as tables ----

  /** First two outputs of the control channels' code. */
  function ControlBits(sr: nat): (o: seq<bool>)
    requires sr < 32
    ensures |o| == 2
  {
    match sr
    case 0 => [false, false] case 1 => [true, true]
    case 2 => [true, false] case 3 => [false, true]
    case 4 => [false, true] case 5 => [true, false]
    case 6 => [true, true] case 7 => [false, false]
    case 8 => [false, true] case 9 => [true, false]
    case 10 => [true, true] case 11 => [false, false]
    case 12 => [false, false] case 13 => [true, true]
    case 14 => [true, false] case 15 => [false, true]
    case 16 => [true, true] case 17 => [false, false]
    case 18 => [false, true] case 19 => [true, false]
    case 20 => [true, false] case 21 => [false, true]
    case 22 => [false, false] case 23 => [true, true]
    case 24 => [true, false] case 25 => [false, true]
    case 26 => [false, false] case 27 => [true, true]
    case 28 => [true, true] case 29 => [false, false]
    case 30 => [false, true] case _ => [true, false]
  }

  lemma ControlBitsAre0(sr: nat)
    requires sr < 8
    ensures Outputs(sr)[..2] == ControlBits(sr)
  {
    match sr
    case 0 => case 1 => case 2 => case 3 => case 4 => case 5 => case 6 => case _ =>
  }

  lemma ControlBitsAre1(sr: nat)
    requires 8 <= sr < 16
    ensures Outputs(sr)[..2] == ControlBits(sr)
  {
    match sr
    case 8 => case 9 => case 10 => case 11 => case 12 => case 13 => case 14 => case _ =>
  }

  lemma ControlBitsAre2(sr: nat)
    requires 16 <= sr < 24
    ensures Outputs(sr)[..2] == ControlBits(sr)
  {
    match sr
    case 16 => case 17 => case 18 => case 19 => case 20 => case 21 => case 22 => case _ =>
  }

  lemma ControlBitsAre3(sr: nat)
    requires 24 <= sr < 32
    ensures Outputs(sr)[..2] == ControlBits(sr)
  {
    match sr
    case 24 => case 25 => case 26 => case 27 => case 28 => case 29 => case 30 => case _ =>
  }

  lemma ControlBitsAre(sr: nat)
    requires sr < 32
    ensures Outputs(sr)[..2] == ControlBits(sr)
  {
    if sr < 8 {
      ControlBitsAre0(sr);
    } else if sr < 16 {
      ControlBitsAre1(sr);
    } else if sr < 24 {
      ControlBitsAre2(sr);
    } else {
      ControlBitsAre3(sr);
    }
  }

  /** Outputs of the speech code. */
  function SpeechBits(sr: nat): (o: seq<bool>)
    requires sr < 32
    ensures |o| == 3
  {
    match sr
    case 0 => [false, false, false] case 1 => [true, true, true]
    case 2 => [true, true, false] case 3 => [false, false, true]
    case 4 => [true, false, true] case 5 => [false, true, false]
    case 6 => [false, true, true] case 7 => [true, false, false]
    case 8 => [true, true, false] case 9 => [false, false, true]
    case 10 => [false, false, false] case 11 => [true, true, true]
    case 12 => [false, true, true] case 13 => [true, false, false]
    case 14 => [true, false, true] case 15 => [false, true, false]
    case 16 => [true, true, true] case 17 => [false, false, false]
    case 18 => [false, false, true] case 19 => [true, true, false]
    case 20 => [false, true, false] case 21 => [true, false, true]
    case 22 => [true, false, false] case 23 => [false, true, true]
    case 24 => [false, false, true] case 25 => [true, true, false]
    case 26 => [true, true, true] case 27 => [false, false, false]
    case 28 => [true, false, false] case 29 => [false, true, true]
    case 30 => [false, true, false] case _ => [true, false, true]
  }

  lemma SpeechBitsAre0(sr: nat)
    requires sr < 8
    ensures SpeechOutputs(sr)[..3] == SpeechBits(sr)
  {
    match sr
    case 0 => case 1 => case 2 => case 3 => case 4 => case 5 => case 6 => case _ =>
  }

  lemma SpeechBitsAre1(sr: nat)
    requires 8 <= sr < 16
    ensures SpeechOutputs(sr)[..3] == SpeechBits(sr)
  {
    match sr
    case 8 => case 9 => case 10 => case 11 => case 12 => case 13 => case 14 => case _ =>
  }

  lemma SpeechBitsAre2(sr: nat)
    requires 16 <= sr < 24
    ensures SpeechOutputs(sr)[..3] == SpeechBits(sr)
  {
    match sr
    case 16 => case 17 => case 18 => case 19 => case 20 => case 21 => case 22 => case _ =>
  }

  lemma SpeechBitsAre3(sr: nat)
    requires 24 <= sr < 32
    ensures SpeechOutputs(sr)[..3] == SpeechBits(sr)
  {
    match sr
    case 24 => case 25 => case 26 => case 27 => case 28 => case 29 => case 30 => case _ =>
  }

  lemma SpeechBitsAre(sr: nat)
    requires sr < 32
    ensures SpeechOutputs(sr)[..3] == SpeechBits(sr)
  {
    if sr < 8 {
      SpeechBitsAre0(sr);
    } else if sr < 16 {
      SpeechBitsAre1(sr);
    } else if sr < 24 {
      SpeechBitsAre2(sr);
    } else {
      SpeechBitsAre3(sr);
    }
  }

  // ---- One step ----

  lemma ControlStep0Low(sr: nat, s: nat, n: nat, rest: nat, e0: bool, e1: bool)
    requires sr < 16 && 2 * s <= sr <= 2 * s + 1 && n == sr && rest < CONTROL_GAP && (e0 ==> rest == 0)
    requires e1 ==> Cooled(rest, e0, CONTROL_GAP) == 0
    ensures Control0(s, rest)
            <= Gain(ControlBits(sr)[0], e0) + Gain(ControlBits(sr)[1], e1)
               + Control1(n, Cooled(Cooled(rest, e0, CONTROL_GAP), e1, CONTROL_GAP))
  {
    match sr
    case 0 => case 1 => case 2 => case 3 => case 4 => case 5 => case 6 => case 7 =>
    case 8 => case 9 => case 10 => case 11 => case 12 => case 13 => case 14 => case _ =>
  }

  lemma ControlStep0High(sr: nat, s: nat, n: nat, rest: nat, e0: bool, e1: bool)
    requires 16 <= sr < 32 && 2 * s <= sr <= 2 * s + 1 && n == sr - 16 && rest < CONTROL_GAP && (e0 ==> rest == 0)
    requires e1 ==> Cooled(rest, e0, CONTROL_GAP) == 0
    ensures Control0(s, rest)
            <= Gain(ControlBits(sr)[0], e0) + Gain(ControlBits(sr)[1], e1)
               + Control1(n, Cooled(Cooled(rest, e0, CONTROL_GAP), e1, CONTROL_GAP))
  {
    match sr
    case 16 => case 17 => case 18 => case 19 => case 20 => case 21 => case 22 => case 23 =>
    case 24 => case 25 => case 26 => case 27 => case 28 => case 29 => case 30 => case _ =>
  }

  lemma ControlStep0Departs(rest: nat, e0: bool, e1: bool)
    requires rest < CONTROL_GAP && (e0 ==> rest == 0)
    requires e1 ==> Cooled(rest, e0, CONTROL_GAP) == 0
    ensures Gain(ControlBits(1)[0], e0) + Gain(ControlBits(1)[1], e1)
            + Control1(1, Cooled(Cooled(rest, e0, CONTROL_GAP), e1, CONTROL_GAP)) >= 2
  {
  }

  lemma ControlStep1Low(sr: nat, s: nat, n: nat, rest: nat, e0: bool)
    requires sr < 16 && 2 * s <= sr <= 2 * s + 1 && n == sr && rest < CONTROL_GAP && (e0 ==> rest == 0)
    ensures Control1(s, rest)
            <= Gain(ControlBits(sr)[0], e0)
               + Control0(n, Cooled(rest, e0, CONTROL_GAP))
  {
    match sr
    case 0 => case 1 => case 2 => case 3 => case 4 => case 5 => case 6 => case 7 =>
    case 8 => case 9 => case 10 => case 11 => case 12 => case 13 => case 14 => case _ =>
  }

  lemma ControlStep1High(sr: nat, s: nat, n: nat, rest: nat, e0: bool)
    requires 16 <= sr < 32 && 2 * s <= sr <= 2 * s + 1 && n == sr - 16 && rest < CONTROL_GAP && (e0 ==> rest == 0)
    ensures Control1(s, rest)
            <= Gain(ControlBits(sr)[0], e0)
               + Control0(n, Cooled(rest, e0, CONTROL_GAP))
  {
    match sr
    case 16 => case 17 => case 18 => case 19 => case 20 => case 21 => case 22 => case 23 =>
    case 24 => case 25 => case 26 => case 27 => case 28 => case 29 => case 30 => case _ =>
  }

  lemma ControlStep1Departs(rest: nat, e0: bool)
    requires rest < CONTROL_GAP && (e0 ==> rest == 0)
    ensures Gain(ControlBits(1)[0], e0) + Control0(1, Cooled(rest, e0, CONTROL_GAP)) >= 2
  {
  }

  lemma FirstStep0Low(sr: nat, s: nat, n: nat, rest: nat, e0: bool, e1: bool)
    requires sr < 16 && 2 * s <= sr <= 2 * s + 1 && n == sr && rest < SPEECH_GAP && (e0 ==> rest == 0)
    requires e1 ==> Cooled(rest, e0, SPEECH_GAP) == 0
    ensures FirstClass0(s, rest)
            <= Gain(SpeechBits(sr)[0], e0) + Gain(SpeechBits(sr)[1], e1)
               + FirstClass1(n, Cooled(Cooled(rest, e0, SPEECH_GAP), e1, SPEECH_GAP))
  {
    match sr
    case 0 => case 1 => case 2 => case 3 => case 4 => case 5 => case 6 => case 7 =>
    case 8 => case 9 => case 10 => case 11 => case 12 => case 13 => case 14 => case _ =>
  }

  lemma FirstStep0High(sr: nat, s: nat, n: nat, rest: nat, e0: bool, e1: bool)
    requires 16 <= sr < 32 && 2 * s <= sr <= 2 * s + 1 && n == sr - 16 && rest < SPEECH_GAP && (e0 ==> rest == 0)
    requires e1 ==> Cooled(rest, e0, SPEECH_GAP) == 0
    ensures FirstClass0(s, rest)
            <= Gain(SpeechBits(sr)[0], e0) + Gain(SpeechBits(sr)[1], e1)
               + FirstClass1(n, Cooled(Cooled(rest, e0, SPEECH_GAP), e1, SPEECH_GAP))
  {
    match sr
    case 16 => case 17 => case 18 => case 19 => case 20 => case 21 => case 22 => case 23 =>
    case 24 => case 25 => case 26 => case 27 => case 28 => case 29 => case 30 => case _ =>
  }

  lemma FirstStep0Departs(rest: nat, e0: bool, e1: bool)
    requires rest < SPEECH_GAP && (e0 ==> rest == 0)
    requires e1 ==> Cooled(rest, e0, SPEECH_GAP) == 0
    ensures Gain(SpeechBits(1)[0], e0) + Gain(SpeechBits(1)[1], e1)
            + FirstClass1(1, Cooled(Cooled(rest, e0, SPEECH_GAP), e1, SPEECH_GAP)) >= 2
  {
  }

  lemma FirstStep1Low(sr: nat, s: nat, n: nat, rest: nat, e0: bool)
    requires sr < 16 && 2 * s <= sr <= 2 * s + 1 && n == sr && rest < SPEECH_GAP && (e0 ==> rest == 0)
    ensures FirstClass1(s, rest)
            <= Gain(SpeechBits(sr)[0], e0)
               + FirstClass0(n, Cooled(rest, e0, SPEECH_GAP))
  {
    match sr
    case 0 => case 1 => case 2 => case 3 => case 4 => case 5 => case 6 => case 7 =>
    case 8 => case 9 => case 10 => case 11 => case 12 => case 13 => case 14 => case _ =>
  }

  lemma FirstStep1High(sr: nat, s: nat, n: nat, rest: nat, e0: bool)
    requires 16 <= sr < 32 && 2 * s <= sr <= 2 * s + 1 && n == sr - 16 && rest < SPEECH_GAP && (e0 ==> rest == 0)
    ensures FirstClass1(s, rest)
            <= Gain(SpeechBits(sr)[0], e0)
               + FirstClass0(n, Cooled(rest, e0, SPEECH_GAP))
  {
    match sr
    case 16 => case 17 => case 18 => case 19 => case 20 => case 21 => case 22 => case 23 =>
    case 24 => case 25 => case 26 => case 27 => case 28 => case 29 => case 30 => case _ =>
  }

  lemma FirstStep1Departs(rest: nat, e0: bool)
    requires rest < SPEECH_GAP && (e0 ==> rest == 0)
    ensures Gain(SpeechBits(1)[0], e0) + FirstClass0(1, Cooled(rest, e0, SPEECH_GAP)) >= 2
  {
  }

  lemma BorderStepLow(sr: nat, s: nat, n: nat, rest: nat, e0: bool)
    requires sr < 16 && 2 * s <= sr <= 2 * s + 1 && n == sr && rest < SPEECH_GAP && (e0 ==> rest == 0)
    ensures FirstClass1(s, rest)
            <= Gain(SpeechBits(sr)[0], e0)
               + SecondClass0(n, Cooled(rest, e0, SPEECH_GAP))
  {
    match sr
    case 0 => case 1 => case 2 => case 3 => case 4 => case 5 => case 6 => case 7 =>
    case 8 => case 9 => case 10 => case 11 => case 12 => case 13 => case 14 => case _ =>
  }

  lemma BorderStepHigh(sr: nat, s: nat, n: nat, rest: nat, e0: bool)
    requires 16 <= sr < 32 && 2 * s <= sr <= 2 * s + 1 && n == sr - 16 && rest < SPEECH_GAP && (e0 ==> rest == 0)
    ensures FirstClass1(s, rest)
            <= Gain(SpeechBits(sr)[0], e0)
               + SecondClass0(n, Cooled(rest, e0, SPEECH_GAP))
  {
    match sr
    case 16 => case 17 => case 18 => case 19 => case 20 => case 21 => case 22 => case 23 =>
    case 24 => case 25 => case 26 => case 27 => case 28 => case 29 => case 30 => case _ =>
  }

  lemma BorderStepDeparts(rest: nat, e0: bool)
    requires rest < SPEECH_GAP && (e0 ==> rest == 0)
    ensures Gain(SpeechBits(1)[0], e0) + SecondClass0(1, Cooled(rest, e0, SPEECH_GAP)) >= 2
  {
  }

  lemma SecondStep0Low(sr: nat, s: nat, n: nat, rest: nat, e0: bool, e1: bool, e2: bool)
    requires sr < 16 && 2 * s <= sr <= 2 * s + 1 && n == sr && rest < SPEECH_GAP && (e0 ==> rest == 0)
    requires e1 ==> Cooled(rest, e0, SPEECH_GAP) == 0
    requires e2 ==> Cooled(Cooled(rest, e0, SPEECH_GAP), e1, SPEECH_GAP) == 0
    ensures SecondClass0(s, rest)
            <= Gain(SpeechBits(sr)[0], e0) + Gain(SpeechBits(sr)[1], e1) + Gain(SpeechBits(sr)[2], e2)
               + SecondClass1(n, Cooled(Cooled(Cooled(rest, e0, SPEECH_GAP), e1, SPEECH_GAP), e2, SPEECH_GAP))
  {
    match sr
    case 0 => case 1 => case 2 => case 3 => case 4 => case 5 => case 6 => case 7 =>
    case 8 => case 9 => case 10 => case 11 => case 12 => case 13 => case 14 => case _ =>
  }

  lemma SecondStep0High(sr: nat, s: nat, n: nat, rest: nat, e0: bool, e1: bool, e2: bool)
    requires 16 <= sr < 32 && 2 * s <= sr <= 2 * s + 1 && n == sr - 16 && rest < SPEECH_GAP && (e0 ==> rest == 0)
    requires e1 ==> Cooled(rest, e0, SPEECH_GAP) == 0
    requires e2 ==> Cooled(Cooled(rest, e0, SPEECH_GAP), e1, SPEECH_GAP) == 0
    ensures SecondClass0(s, rest)
            <= Gain(SpeechBits(sr)[0], e0) + Gain(SpeechBits(sr)[1], e1) + Gain(SpeechBits(sr)[2], e2)
               + SecondClass1(n, Cooled(Cooled(Cooled(rest, e0, SPEECH_GAP), e1, SPEECH_GAP), e2, SPEECH_GAP))
  {
    match sr
    case 16 => case 17 => case 18 => case 19 => case 20 => case 21 => case 22 => case 23 =>
    case 24 => case 25 => case 26 => case 27 => case 28 => case 29 => case 30 => case _ =>
  }

  lemma SecondStep0Departs(rest: nat, e0: bool, e1: bool, e2: bool)
    requires rest < SPEECH_GAP && (e0 ==> rest == 0)
    requires e1 ==> Cooled(rest, e0, SPEECH_GAP) == 0
    requires e2 ==> Cooled(Cooled(rest, e0, SPEECH_GAP), e1, SPEECH_GAP) == 0
    ensures Gain(SpeechBits(1)[0], e0) + Gain(SpeechBits(1)[1], e1) + Gain(SpeechBits(1)[2], e2)
          + SecondClass1(1, Cooled(Cooled(Cooled(rest, e0, SPEECH_GAP), e1, SPEECH_GAP), e2, SPEECH_GAP)) >= 2
  {
  }

  lemma SecondStep1Low(sr: nat, s: nat, n: nat, rest: nat, e0: bool, e1: bool)
    requires sr < 16 && 2 * s <= sr <= 2 * s + 1 && n == sr && rest < SPEECH_GAP && (e0 ==> rest == 0)
    requires e1 ==> Cooled(rest, e0, SPEECH_GAP) == 0
    ensures SecondClass1(s, rest)
            <= Gain(SpeechBits(sr)[0], e0) + Gain(SpeechBits(sr)[1], e1)
               + SecondClass2(n, Cooled(Cooled(rest, e0, SPEECH_GAP), e1, SPEECH_GAP))
  {
    match sr
    case 0 => case 1 => case 2 => case 3 => case 4 => case 5 => case 6 => case 7 =>
    case 8 => case 9 => case 10 => case 11 => case 12 => case 13 => case 14 => case _ =>
  }

  lemma SecondStep1High(sr: nat, s: nat, n: nat, rest: nat, e0: bool, e1: bool)
    requires 16 <= sr < 32 && 2 * s <= sr <= 2 * s + 1 && n == sr - 16 && rest < SPEECH_GAP && (e0 ==> rest == 0)
    requires e1 ==> Cooled(rest, e0, SPEECH_GAP) == 0
    ensures SecondClass1(s, rest)
            <= Gain(SpeechBits(sr)[0], e0) + Gain(SpeechBits(sr)[1], e1)
               + SecondClass2(n, Cooled(Cooled(rest, e0, SPEECH_GAP), e1, SPEECH_GAP))
  {
    match sr
    case 16 => case 17 => case 18 => case 19 => case 20 => case 21 => case 22 => case 23 =>
    case 24 => case 25 => case 26 => case 27 => case 28 => case 29 => case 30 => case _ =>
  }

  lemma SecondStep1Departs(rest: nat, e0: bool, e1: bool)
    requires rest < SPEECH_GAP && (e0 ==> rest == 0)
    requires e1 ==> Cooled(rest, e0, SPEECH_GAP) == 0
    ensures Gain(SpeechBits(1)[0], e0) + Gain(SpeechBits(1)[1], e1)
            + SecondClass2(1, Cooled(Cooled(rest, e0, SPEECH_GAP), e1, SPEECH_GAP)) >= 2
  {
  }

  lemma SecondStep2Low(sr: nat, s: nat, n: nat, rest: nat, e0: bool, e1: bool)
    requires sr < 16 && 2 * s <= sr <= 2 * s + 1 && n == sr && rest < SPEECH_GAP && (e0 ==> rest == 0)
    requires e1 ==> Cooled(rest, e0, SPEECH_GAP) == 0
    ensures SecondClass2(s, rest)
            <= Gain(SpeechBits(sr)[0], e0) + Gain(SpeechBits(sr)[1], e1)
               + SecondClass3(n, Cooled(Cooled(rest, e0, SPEECH_GAP), e1, SPEECH_GAP))
  {
    match sr
    case 0 => case 1 => case 2 => case 3 => case 4 => case 5 => case 6 => case 7 =>
    case 8 => case 9 => case 10 => case 11 => case 12 => case 13 => case 14 => case _ =>
  }

  lemma SecondStep2High(sr: nat, s: nat, n: nat, rest: nat, e0: bool, e1: bool)
    requires 16 <= sr < 32 && 2 * s <= sr <= 2 * s + 1 && n == sr - 16 && rest < SPEECH_GAP && (e0 ==> rest == 0)
    requires e1 ==> Cooled(rest, e0, SPEECH_GAP) == 0
    ensures SecondClass2(s, rest)
            <= Gain(SpeechBits(sr)[0], e0) + Gain(SpeechBits(sr)[1], e1)
               + SecondClass3(n, Cooled(Cooled(rest, e0, SPEECH_GAP), e1, SPEECH_GAP))
  {
    match sr
    case 16 => case 17 => case 18 => case 19 => case 20 => case 21 => case 22 => case 23 =>
    case 24 => case 25 => case 26 => case 27 => case 28 => case 29 => case 30 => case _ =>
  }

  lemma SecondStep2Departs(rest: nat, e0: bool, e1: bool)
    requires rest < SPEECH_GAP && (e0 ==> rest == 0)
    requires e1 ==> Cooled(rest, e0, SPEECH_GAP) == 0
    ensures Gain(SpeechBits(1)[0], e0) + Gain(SpeechBits(1)[1], e1)
            + SecondClass3(1, Cooled(Cooled(rest, e0, SPEECH_GAP), e1, SPEECH_GAP)) >= 2
  {
  }

  lemma SecondStep3Low(sr: nat, s: nat, n: nat, rest: nat, e0: bool, e1: bool)
    requires sr < 16 && 2 * s <= sr <= 2 * s + 1 && n == sr && rest < SPEECH_GAP && (e0 ==> rest == 0)
    requires e1 ==> Cooled(rest, e0, SPEECH_GAP) == 0
    ensures SecondClass3(s, rest)
            <= Gain(SpeechBits(sr)[0], e0) + Gain(SpeechBits(sr)[1], e1)
               + SecondClass0(n, Cooled(Cooled(rest, e0, SPEECH_GAP), e1, SPEECH_GAP))
  {
    match sr
    case 0 => case 1 => case 2 => case 3 => case 4 => case 5 => case 6 => case 7 =>
    case 8 => case 9 => case 10 => case 11 => case 12 => case 13 => case 14 => case _ =>
  }

  lemma SecondStep3High(sr: nat, s: nat, n: nat, rest: nat, e0: bool, e1: bool)
    requires 16 <= sr < 32 && 2 * s <= sr <= 2 * s + 1 && n == sr - 16 && rest < SPEECH_GAP && (e0 ==> rest == 0)
    requires e1 ==> Cooled(rest, e0, SPEECH_GAP) == 0
    ensures SecondClass3(s, rest)
            <= Gain(SpeechBits(sr)[0], e0) + Gain(SpeechBits(sr)[1], e1)
               + SecondClass0(n, Cooled(Cooled(rest, e0, SPEECH_GAP), e1, SPEECH_GAP))
  {
    match sr
    case 16 => case 17 => case 18 => case 19 => case 20 => case 21 => case 22 => case 23 =>
    case 24 => case 25 => case 26 => case 27 => case 28 => case 29 => case 30 => case _ =>
  }

  lemma SecondStep3Departs(rest: nat, e0: bool, e1: bool)
    requires rest < SPEECH_GAP && (e0 ==> rest == 0)
    requires e1 ==> Cooled(rest, e0, SPEECH_GAP) == 0
    ensures Gain(SpeechBits(1)[0], e0) + Gain(SpeechBits(1)[1], e1)
            + SecondClass0(1, Cooled(Cooled(rest, e0, SPEECH_GAP), e1, SPEECH_GAP)) >= 2
  {
  }
}
