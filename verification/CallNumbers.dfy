/** Call identifiers and usage markers over whole runs: the n-th new call of a run gets the n-th of each cycle. */
module CallNumbers {
  import opened CallModel
  import opened CallInvariant
  import opened CallRuns
  import opened CallEffects

  /** A set-up for which a new slot is tried: an unknown caller, no running call of the group, an empty slot. */
  predicate TriesSlot(f: Fsm, step: Step)
    requires Shape(f)
  {
    && step.Uplinked? && step.pdu.USetup? && step.ssi != 0 && Unknown(f, step.ssi)
    && (exists i :: 0 <= i < MAX_CALLS && f.slots[i].ssi == 0)
    && !JoinsGroup(f, CalledParty(step.pdu), step.pdu.communicationType, step.world)
  }

  function CalledParty(p: Uplink): nat
    requires p.USetup?
  {
    if p.calledType == 1 || p.calledType == 2 then p.calledSsi % 0x100_0000 else 0
  }

  /** A group call of the called party, which is a registered group, is running. */
  predicate JoinsGroup(f: Fsm, cp: nat, communicationType: nat, w: World)
    requires Shape(f)
  {
    cp != 0 && 1 <= communicationType <= 3 && cp in w.groups && exists j: nat :: j < MAX_CALLS && RunsGroup(f, j, cp)
  }

  predicate SameNumbers(f: Fsm, g: Fsm) {
    g.nextCallId == f.nextCallId && g.nextUmt == f.nextUmt
  }

  lemma SubmitsKeepNumbers(f: Fsm, i: nat, w: World, cause: nat)
    requires Shape(f) && i < MAX_CALLS && Supplies(w)
    ensures SameNumbers(f, GroupSetup(f, i, w)) && SameNumbers(f, IndividualSetup(f, i, w)) && SameNumbers(f, Granted(f, i, w))
    ensures SameNumbers(f, Answered(f, i, w)) && SameNumbers(f, Ended(f, i, cause, w))
  {
    assert SameNumbers(f, Freed(Submit(f, DRelease, i, cause), i));
  }

  lemma TurnKeepsNumbers(f: Fsm, i: nat, now: nat, b: Burst)
    requires Shape(f) && i < MAX_CALLS
    ensures SameNumbers(f, Turn(f, i, now, b))
  {
    assert SameNumbers(f, Sequenced(f, i, now));
  }

  lemma {:induction false} TurnsKeepNumbers(f: Fsm, now: nat, bursts: seq<Burst>, n: nat)
    requires Shape(f) && n <= MAX_CALLS == |bursts|
    ensures SameNumbers(f, Turns(f, now, bursts, n))
  {
    if n > 0 {
      TurnsKeepNumbers(f, now, bursts, n - 1);
      TurnKeepsNumbers(Turns(f, now, bursts, n - 1), n - 1, now, bursts[n - 1]);
    }
  }

  lemma OthersKeepNumbers(f: Fsm, ssi: nat, p: Uplink, w: World)
    requires Shape(f) && Supplies(w) && !p.USetup?
    ensures SameNumbers(f, Handled(f, ssi, p, w).0)
  {
    match p
    case UTxDemand(callId) =>
      var own, other := Find(f.slots, BySsi(ssi), 0), Find(f.slots, ByCallId(callId), 0);
      var i := if own < MAX_CALLS then own else other;
      if i < MAX_CALLS {
        var s := if own < MAX_CALLS then f.slots[i] else f.slots[i].(ssi := ssi, ns := 0, nr := 0);
        SubmitsKeepNumbers(Put(f, i, s.(ns := Flip(s.ns))), i, w, 0);
      }
    case UConnect(callId) =>
      var own, other := Find(f.slots, BySsi(ssi), 0), Find(f.slots, ByCallId(callId), 0);
      var i := if own < MAX_CALLS then own else other;
      if i < MAX_CALLS {
        SubmitsKeepNumbers(f, i, w, 0);
      }
    case URelease(cause) => ReleaseKeepsNumbers(f, ssi, cause, w);
    case UDisconnect(cause) => ReleaseKeepsNumbers(f, ssi, cause, w);
    case _ =>
  }

  lemma ReleaseKeepsNumbers(f: Fsm, ssi: nat, cause: nat, w: World)
    requires Shape(f) && Supplies(w)
    ensures SameNumbers(f, Release(f, ssi, cause, w).0)
  {
    var i := Find(f.slots, BySsi(ssi), 0);
    if i < MAX_CALLS {
      SubmitsKeepNumbers(Put(f, i, f.slots[i].(ns := Flip(f.slots[i].ns))), i, w, cause);
    }
  }

  /** A set-up takes the numbers of the step that looks for its slot. */
  lemma SetupTakesNumbers(f: Fsm, ssi: nat, cp: nat, group: bool, w: World)
    requires Shape(f) && Supplies(w)
    ensures SameNumbers(SetupSlot(f, ssi, cp, group).0, Setup(f, ssi, cp, group, w).0)
  {
    var (g, i) := SetupSlot(f, ssi, cp, group);
    if i < MAX_CALLS {
      var s := g.slots[i].(gssi := if group then cp else 0, issi := if group then 0 else cp, state := Connecting,
                           setupAt := w.clock[0], ceasedAt := 0);
      SubmitsKeepNumbers(Put(g, i, s), i, w, 0);
    }
  }

  lemma EmptySlotTakesNumbers(f: Fsm, ssi: nat)
    requires Inv(f) && ssi != 0
    ensures var g := Allocated(f, ssi).0;
            if exists i :: 0 <= i < MAX_CALLS && f.slots[i].ssi == 0
            then g.nextCallId == CallIdAfter(f.nextCallId) && g.nextUmt == MarkerAfter(f.nextUmt)
            else SameNumbers(f, g)
  {
    if exists i :: 0 <= i < MAX_CALLS && f.slots[i].ssi == 0 {
      var i := FindEmpty(f);
      AllocatedSlot(f, ssi, i);
    } else {
      NoEmptySlot(f, ssi);
    }
  }

  lemma FindEmpty(f: Fsm) returns (i: nat)
    requires Shape(f) && exists i :: 0 <= i < MAX_CALLS && f.slots[i].ssi == 0
    ensures FirstEmpty(f, i)
  {
    i := Find(f.slots, Free, 0);
    var k :| 0 <= k < MAX_CALLS && f.slots[k].ssi == 0;
    assert Matches(f.slots[k], Free);
    assert forall j :: 0 <= j < i ==> !Matches(f.slots[j], Free);
  }

  /** Where the slot of a set-up comes from decides whether the numbers move on. */
  lemma SlotTakesNumbers(f: Fsm, ssi: nat, cp: nat, group: bool)
    requires Inv(f) && ssi != 0
    ensures var g := SetupSlot(f, ssi, cp, group).0;
            if Unknown(f, ssi) && !(group && exists j: nat :: j < MAX_CALLS && RunsGroup(f, j, cp))
                  && exists i :: 0 <= i < MAX_CALLS && f.slots[i].ssi == 0
            then g.nextCallId == CallIdAfter(f.nextCallId) && g.nextUmt == MarkerAfter(f.nextUmt)
            else SameNumbers(f, g)
  {
    if !Unknown(f, ssi) {
      var i :| 0 <= i < MAX_CALLS && f.slots[i].ssi == ssi;
      SetupInOwnSlot(f, ssi, cp, group, i);
    } else if j: nat :| group && j < MAX_CALLS && RunsGroup(f, j, cp) {
      SetupTakesOver(f, ssi, cp, j);
    } else {
      SetupAllocates(f, ssi, cp, group);
      EmptySlotTakesNumbers(f, ssi);
    }
  }

  /** A step moves both numbers on exactly when it tries a new slot, also when no timeslot is left for it. */
  lemma NextTakesNumbers(f: Fsm, step: Step)
    requires Inv(f) && StepOk(step)
    ensures var g := Next(f, step);
            if TriesSlot(f, step) then g.nextCallId == CallIdAfter(f.nextCallId) && g.nextUmt == MarkerAfter(f.nextUmt)
            else SameNumbers(f, g)
  {
    match step
    case Uplinked(ssi, p, w) =>
      if ssi != 0 && p.USetup? {
        var cp := CalledParty(p);
        var group := cp != 0 && 1 <= p.communicationType <= 3 && cp in w.groups;
        SetupOf(f, ssi, p.calledType, p.calledSsi, p.communicationType, w);
        SetupTakesNumbers(f, ssi, cp, group, w);
        SlotTakesNumbers(f, ssi, cp, group);
      } else if ssi != 0 {
        OthersKeepNumbers(f, ssi, p, w);
      }
    case Tick(now, bursts, later) => TurnsKeepNumbers(f, now, bursts, MAX_CALLS);
    case Voice(b) =>
    case Late(gssi) =>
  }

  /** Set-ups of a run for which a new slot is tried. */
  function Tries(f: Fsm, steps: seq<Step>): nat
    requires Shape(f) && forall k :: 0 <= k < |steps| ==> StepOk(steps[k])
    decreases |steps|
  {
    if |steps| == 0 then 0 else (if TriesSlot(f, steps[0]) then 1 else 0) + Tries(Next(f, steps[0]), steps[1..])
  }

  /** The numbers after n tries: identifiers 1 to 16383 and markers 4 to 63 in turn. */
  predicate NumbersAfter(f: Fsm, n: nat) {
    f.nextCallId == 1 + n % 16383 && f.nextUmt == 4 + n % 60
  }

  lemma OneMoreTry(n: nat, m: nat)
    requires m == n + 1
    ensures CallIdAfter(1 + n % 16383) == 1 + m % 16383 && MarkerAfter(4 + n % 60) == 4 + m % 60
  {
    NextIdentifier(n, m);
    NextMarker(n, m);
  }

  lemma NextIdentifier(n: nat, m: nat)
    requires m == n + 1
    ensures m % 16383 == if n % 16383 == 16382 then 0 else n % 16383 + 1
  {
  }

  lemma NextMarker(n: nat, m: nat)
    requires m == n + 1
    ensures m % 60 == if n % 60 == 59 then 0 else n % 60 + 1
  {
  }

  lemma NextNumbers(f: Fsm, step: Step, n: nat, m: nat)
    requires Inv(f) && StepOk(step) && NumbersAfter(f, n) && m == if TriesSlot(f, step) then n + 1 else n
    ensures NumbersAfter(Next(f, step), m)
  {
    NextTakesNumbers(f, step);
    OneMoreTry(n, n + 1);
  }

  /** After any run the next call gets the numbers that its count of tries gives. */
  lemma {:induction false} RunTakesNumbers(f: Fsm, steps: seq<Step>, n: nat, g: Fsm, m: nat)
    requires Inv(f) && NumbersAfter(f, n) && forall k :: 0 <= k < |steps| ==> StepOk(steps[k])
    requires g == Run(f, steps) && m == n + Tries(f, steps)
    ensures NumbersAfter(g, m)
    decreases |steps|
  {
    if |steps| > 0 {
      var k := if TriesSlot(f, steps[0]) then n + 1 else n;
      NextKeeps(f, steps[0]);
      NextNumbers(f, steps[0], n, k);
      RunTakesNumbers(Next(f, steps[0]), steps[1..], k, g, m);
    }
  }

  /** The same from the start of the daemon. */
  lemma NumbersFromStart(f: Fsm, steps: seq<Step>)
    requires f == Start() && forall k :: 0 <= k < |steps| ==> StepOk(steps[k])
    ensures NumbersAfter(Run(f, steps), Tries(f, steps))
  {
    StartHolds();
    StartNumbers();
    RunTakesNumbers(f, steps, 0, Run(f, steps), Tries(f, steps));
  }

  lemma StartNumbers()
    ensures NumbersAfter(Start(), 0)
  {
  }

  /** The first register write is due whatever the mask of four calls is. */
  lemma FirstMaskIsWritten(v: set<nat>)
    requires v <= LOW_BITS
    ensures OnMask(Start(), v) == [MaskWritten(v)]
  {
    assert 31 in ALL_BITS && 31 !in v;
  }
}
