/** Whole runs of the call-control state machine: safety, the watchdog and the set-up sequencer. */
module CallRuns {
  import opened CallModel
  import opened CallInvariant

  datatype Step =
    | Uplinked(ssi: nat, pdu: Uplink, world: World)
    | Tick(now: nat, bursts: seq<Burst>, later: nat)
    | Voice(burst: Burst)
    | Late(gssi: nat)

  predicate StepOk(step: Step) {
    match step
    case Uplinked(_, _, w) => Supplies(w)
    case Tick(_, bursts, _) => |bursts| == MAX_CALLS
    case Voice(_) => true
    case Late(_) => true
  }

  function Next(f: Fsm, step: Step): (g: Fsm)
    requires Shape(f) && StepOk(step)
    ensures Shape(g)
  {
    match step
    case Uplinked(ssi, p, w) => Handled(f, ssi, p, w).0
    case Tick(now, bursts, later) => Ticked(f, now, bursts, later)
    case Voice(b) => Refreshed(f, b)
    case Late(gssi) => LateEntry(f, gssi)
  }

  function Run(f: Fsm, steps: seq<Step>): (g: Fsm)
    requires Shape(f) && forall k :: 0 <= k < |steps| ==> StepOk(steps[k])
    ensures Shape(g)
    decreases |steps|
  {
    if |steps| == 0 then f else Run(Next(f, steps[0]), steps[1..])
  }

  lemma NextKeeps(f: Fsm, step: Step)
    requires Inv(f) && StepOk(step)
    ensures Inv(Next(f, step))
  {
    match step
    case Uplinked(ssi, p, w) => HandledKeeps(f, ssi, p, w);
    case Tick(now, bursts, later) => TickedKeeps(f, now, bursts, later);
    case Voice(b) => RefreshedKeeps(f, b);
    case Late(gssi) =>
      if gssi != 0 {
        AnnouncedKeeps(f, gssi, MAX_CALLS);
      }
  }

  /** The invariant holds in every run. */
  lemma {:induction false} RunKeeps(f: Fsm, steps: seq<Step>)
    requires Inv(f) && forall k :: 0 <= k < |steps| ==> StepOk(steps[k])
    ensures Inv(Run(f, steps))
    decreases |steps|
  {
    if |steps| > 0 {
      NextKeeps(f, steps[0]);
      RunKeeps(Next(f, steps[0]), steps[1..]);
    }
  }

  // ---- Watchdog ----

  /** The same slot but for the time of its last activity. */
  predicate SameButActivity(s: Slot, u: Slot) {
    u == s.(lastActivity := u.lastActivity)
  }

  /** The same call: only activity and sequencer differ. */
  predicate SameCall(s: Slot, u: Slot) {
    u == s.(lastActivity := u.lastActivity, stage := u.stage, next := u.next)
  }

  /** Bursts during a tick that starts at now are heard at now or later. */
  predicate HeardSince(bursts: seq<Burst>, now: nat) {
    forall k :: 0 <= k < |bursts| && bursts[k].Heard? ==> bursts[k].ms >= now
  }

  lemma SequencedSlot(f: Fsm, i: nat, now: nat)
    requires Inv(f) && i < MAX_CALLS && f.slots[i].ssi != 0
    ensures SameCall(f.slots[i], Sequenced(f, i, now).slots[i])
    ensures Sequenced(f, i, now).slots[i].lastActivity == f.slots[i].lastActivity
  {
    assert SlotOk(f.slots[i]);
  }

  lemma RefreshedSlot(f: Fsm, b: Burst, i: nat, now: nat)
    requires Shape(f) && i < MAX_CALLS && (b.Heard? ==> b.ms >= now)
    ensures var s, u := f.slots[i], Refreshed(f, b).slots[i];
            SameButActivity(s, u) && (u.lastActivity == s.lastActivity || u.lastActivity >= now)
  {
  }

  /** Slot i's own turn. */
  lemma OwnTurn(f: Fsm, i: nat, now: nat, b: Burst)
    requires Inv(f) && i < MAX_CALLS && (b.Heard? ==> b.ms >= now)
    ensures var s, u := f.slots[i], Turn(f, i, now, b).slots[i];
            && (u.ssi == 0 <==> s.ssi == 0 || Expired(s, now))
            && (u.ssi != 0 ==> SameCall(s, u) && !Expired(u, now))
  {
    if f.slots[i].ssi != 0 {
      SequencedSlot(f, i, now);
      var g := Sequenced(f, i, now);
      RefreshedSlot(g, b, i, now);
      RefreshedSlot(ClearBank(g, g.slots[i].ts), b, i, now);
    }
  }

  /** Somebody else's turn. */
  lemma OtherTurn(f: Fsm, i: nat, j: nat, now: nat, b: Burst)
    requires Shape(f) && i < MAX_CALLS && j < MAX_CALLS && i != j && (b.Heard? ==> b.ms >= now)
    ensures var s, u := f.slots[j], Turn(f, i, now, b).slots[j];
            && SameButActivity(s, u) && (u.lastActivity == s.lastActivity || u.lastActivity >= now)
  {
    assert Sequenced(f, i, now).slots[j] == f.slots[j];
  }

  lemma {:induction false} BeforeTurn(f: Fsm, now: nat, bursts: seq<Burst>, n: nat, j: nat)
    requires Inv(f) && n <= j < MAX_CALLS == |bursts| && HeardSince(bursts, now)
    ensures SameButActivity(f.slots[j], Turns(f, now, bursts, n).slots[j])
  {
    if n > 0 {
      BeforeTurn(f, now, bursts, n - 1, j);
      OtherTurn(Turns(f, now, bursts, n - 1), n - 1, j, now, bursts[n - 1]);
    }
  }

  /** A slot and what the turns after its own may make of it. */
  predicate Settled(s: Slot, u: Slot, now: nat) {
    SameButActivity(s, u) && (u.ssi != 0 ==> !Expired(u, now))
  }

  lemma {:induction false} AfterTurn(f: Fsm, now: nat, bursts: seq<Burst>, n: nat, j: nat)
    requires Inv(f) && j < n <= MAX_CALLS == |bursts| && HeardSince(bursts, now)
    ensures Settled(Turns(f, now, bursts, j + 1).slots[j], Turns(f, now, bursts, n).slots[j], now)
  {
    TurnsKeep(f, now, bursts, n - 1);
    var g := Turns(f, now, bursts, n - 1);
    if n == j + 1 {
      OwnTurn(g, j, now, bursts[j]);
    } else {
      AfterTurn(f, now, bursts, n - 1, j);
      OtherTurn(g, n - 1, j, now, bursts[n - 1]);
    }
  }

  /**
   * A tick frees exactly the slots over their limit when their turn comes, and keeps every other
   * call.
   */
  lemma WatchdogIsExact(f: Fsm, now: nat, bursts: seq<Burst>, later: nat, i: nat)
    requires Inv(f) && |bursts| == MAX_CALLS && HeardSince(bursts, now) && i < MAX_CALLS
    ensures var s, u := Turns(f, now, bursts, i).slots[i], Ticked(f, now, bursts, later).slots[i];
            && SameButActivity(f.slots[i], s)
            && (u.ssi == 0 <==> s.ssi == 0 || Expired(s, now))
            && (u.ssi != 0 ==> SameCall(s, u))
  {
    BeforeTurn(f, now, bursts, i, i);
    TurnsKeep(f, now, bursts, i);
    OwnTurn(Turns(f, now, bursts, i), i, now, bursts[i]);
    AfterTurn(f, now, bursts, MAX_CALLS, i);
  }

  /** After a tick at now no connected call is idle and no ringing call is waiting beyond its limit. */
  lemma NothingStale(f: Fsm, now: nat, bursts: seq<Burst>, later: nat, i: nat)
    requires Inv(f) && |bursts| == MAX_CALLS && HeardSince(bursts, now) && i < MAX_CALLS
    ensures var u := Ticked(f, now, bursts, later).slots[i];
            u.ssi != 0 ==> if u.state == Connecting then Age(u.setupAt, now) <= ALERT_TIMEOUT_MS
                           else Age(u.lastActivity, now) <= CALL_STALE_MS
  {
    AfterTurn(f, now, bursts, MAX_CALLS, i);
    TickedKeeps(f, now, bursts, later);
  }

  lemma {:induction false} QuietTurns(f: Fsm, now: nat, bursts: seq<Burst>, n: nat, j: nat)
    requires Inv(f) && n <= j < MAX_CALLS == |bursts| && forall k :: 0 <= k < MAX_CALLS ==> bursts[k] == NoBurst
    ensures Turns(f, now, bursts, n).slots[j] == f.slots[j]
  {
    if n > 0 {
      QuietTurns(f, now, bursts, n - 1, j);
      QuietTurn(Turns(f, now, bursts, n - 1), n - 1, j, now);
    }
  }

  lemma QuietTurn(f: Fsm, i: nat, j: nat, now: nat)
    requires Shape(f) && i < MAX_CALLS && j < MAX_CALLS && i != j
    ensures Turn(f, i, now, NoBurst).slots[j] == f.slots[j]
  {
    assert Sequenced(f, i, now).slots[j] == f.slots[j];
  }

  /** Without bursts during the tick: exactly the slots over their limit before it. */
  lemma QuietWatchdog(f: Fsm, now: nat, bursts: seq<Burst>, later: nat, i: nat)
    requires Inv(f) && |bursts| == MAX_CALLS && i < MAX_CALLS
    requires forall k :: 0 <= k < MAX_CALLS ==> bursts[k] == NoBurst
    ensures Ticked(f, now, bursts, later).slots[i].ssi == 0 <==> f.slots[i].ssi == 0 || Expired(f.slots[i], now)
  {
    WatchdogIsExact(f, now, bursts, later, i);
    QuietTurns(f, now, bursts, i, i);
  }

  lemma TurnLeavesMask(f: Fsm, i: nat, now: nat, b: Burst)
    requires Shape(f) && i < MAX_CALLS
    ensures Turn(f, i, now, b).cached == f.cached && Turn(f, i, now, b).mask == f.mask
  {
    assert Sequenced(f, i, now).cached == f.cached && Sequenced(f, i, now).mask == f.mask;
  }

  lemma {:induction false} TurnsLeaveMask(f: Fsm, now: nat, bursts: seq<Burst>, n: nat)
    requires Shape(f) && n <= MAX_CALLS == |bursts|
    ensures Turns(f, now, bursts, n).cached == f.cached && Turns(f, now, bursts, n).mask == f.mask
  {
    if n > 0 {
      TurnsLeaveMask(f, now, bursts, n - 1);
      TurnLeavesMask(Turns(f, now, bursts, n - 1), n - 1, now, bursts[n - 1]);
    }
  }

  // ---- Set-up sequencer ----

  /** What the sequencer still has to send for a slot. */
  function Remaining(s: Slot): seq<Kind> {
    if s.stage == 1 then [DConnect, DSetup] else if s.stage == 2 || s.stage == 11 then [DSetup] else []
  }

  /** A PDU that a tick stages, and when. */
  datatype Sent = Sent(kind: Kind, at: nat)

  /** What the sequencer stages for a slot at time now. */
  function Staged(s: Slot, now: nat): (r: seq<Sent>)
    ensures |r| <= 1
  {
    if s.ssi != 0 && Remaining(s) != [] && Due(s.next, now) then [Sent(Remaining(s)[0], now)] else []
  }

  /** The log of a turn starts with what is staged. */
  lemma StagedIsSubmitted(f: Fsm, i: nat, now: nat)
    requires Inv(f) && i < MAX_CALLS && f.slots[i].ssi != 0
    ensures var r, s := Staged(f.slots[i], now), f.slots[i];
            Sequenced(f, i, now).log == if r == [] then f.log
                                        else f.log + [Submitted(CallPdu(r[0].kind, s, 0), f.aach[s.ts])]
  {
    assert SlotOk(f.slots[i]);
  }

  /** A turn moves what it stages from the plan to the log, or drops the plan with the call. */
  lemma TurnFollowsPlan(f: Fsm, i: nat, now: nat, b: Burst)
    requires Inv(f) && i < MAX_CALLS
    ensures var s, u := f.slots[i], Turn(f, i, now, b).slots[i];
            && (u.ssi == 0 ==> Remaining(u) == [])
            && (u.ssi != 0 ==> Kinds(Staged(s, now)) + Remaining(u) == Remaining(s))
            && (u.ssi != 0 && Staged(s, now) == [] ==> u.next == s.next)
            && (Staged(s, now) != [] && Remaining(u) != [] ==> u.next == Later(now))
  {
    var s := f.slots[i];
    if s.ssi != 0 {
      assert SlotOk(s);
      var g := Sequenced(f, i, now);
      PlanStep(f, i, now);
      AfterSequencer(f, i, now, b);
    }
  }

  lemma PlanStep(f: Fsm, i: nat, now: nat)
    requires Inv(f) && i < MAX_CALLS && f.slots[i].ssi != 0
    ensures var s, u := f.slots[i], Sequenced(f, i, now).slots[i];
            && u.ssi != 0 && Kinds(Staged(s, now)) + Remaining(u) == Remaining(s)
            && (Staged(s, now) == [] ==> u.next == s.next)
            && (Staged(s, now) != [] && Remaining(u) != [] ==> u.next == Later(now))
  {
    assert SlotOk(f.slots[i]);
  }

  /** The rest of the turn empties the slot or leaves its plan alone. */
  lemma AfterSequencer(f: Fsm, i: nat, now: nat, b: Burst)
    requires Inv(f) && i < MAX_CALLS && f.slots[i].ssi != 0
    ensures var v, u := Sequenced(f, i, now).slots[i], Turn(f, i, now, b).slots[i];
            u == EMPTY || (u.ssi == v.ssi && u.stage == v.stage && u.next == v.next)
  {
  }

  function Kinds(sent: seq<Sent>): (k: seq<Kind>)
    ensures |k| == |sent|
  {
    seq(|sent|, i requires 0 <= i < |sent| => sent[i].kind)
  }

  /** What one step stages for slot i on its own account. */
  function StagedIn(f: Fsm, step: Step, i: nat): (r: seq<Sent>)
    requires Shape(f) && StepOk(step) && i < MAX_CALLS
    ensures |r| <= 1
  {
    match step
    case Tick(now, bursts, _) => Staged(Turns(f, now, bursts, i).slots[i], now)
    case Uplinked(_, _, _) => []
    case Voice(_) => []
    case Late(_) => []
  }

  function StagedRun(f: Fsm, steps: seq<Step>, i: nat): (r: seq<Sent>)
    requires Shape(f) && i < MAX_CALLS && forall k :: 0 <= k < |steps| ==> StepOk(steps[k])
    decreases |steps|
  {
    if |steps| == 0 then [] else StagedIn(f, steps[0], i) + StagedRun(Next(f, steps[0]), steps[1..], i)
  }

  /** A U-SETUP that lands on slot i. */
  predicate Restarts(f: Fsm, step: Step, i: nat)
    requires Shape(f)
  {
    step.Uplinked? && step.ssi != 0 && step.pdu.USetup? &&
    var cp := CalledSsi(step.pdu.calledType, step.pdu.calledSsi);
    SetupSlot(f, step.ssi, cp, IsGroupCall(cp, step.pdu.communicationType, step.world.groups)).1 == i
  }

  /** No step of the run sets slot i up again. */
  predicate NoRestart(f: Fsm, steps: seq<Step>, i: nat)
    requires Shape(f) && forall k :: 0 <= k < |steps| ==> StepOk(steps[k])
    decreases |steps|
  {
    |steps| == 0 || (!Restarts(f, steps[0], i) && NoRestart(Next(f, steps[0]), steps[1..], i))
  }

  /** The plan of a slot is kept or dropped. */
  predicate PlanKept(s: Slot, u: Slot) {
    Remaining(u) == [] || (s.ssi != 0 && Remaining(u) == Remaining(s) && u.next == s.next)
  }

  /** How a step may change a slot that it stages r for. */
  predicate FollowsPlan(s: Slot, r: seq<Sent>, u: Slot) {
    if r == [] then PlanKept(s, u)
    else
      && |r| == 1 && Remaining(s) != [] && r[0].kind == Remaining(s)[0] && Due(s.next, r[0].at)
      && (Remaining(u) == [] || (Remaining(u) == Remaining(s)[1..] && u.next == Later(r[0].at)))
  }

  lemma AllocatedElsewhere(f: Fsm, ssi: nat, i: nat)
    requires Inv(f) && i < MAX_CALLS && Allocated(f, ssi).1 != i
    ensures Allocated(f, ssi).0.slots[i] == f.slots[i]
  {
    var free := Find(f.slots, Free, 0);
    assert free < MAX_CALLS ==> f.slots[free] == EMPTY;
  }

  lemma SetupSlotElsewhere(f: Fsm, ssi: nat, cp: nat, group: bool, i: nat)
    requires Inv(f) && i < MAX_CALLS && SetupSlot(f, ssi, cp, group).1 != i
    ensures SetupSlot(f, ssi, cp, group).0.slots[i] == f.slots[i]
  {
    if SetupSlot(f, ssi, cp, group) == Allocated(f, ssi) {
      AllocatedElsewhere(f, ssi, i);
    }
  }

  lemma SetupElsewhere(f: Fsm, ssi: nat, cp: nat, group: bool, w: World, i: nat)
    requires Inv(f) && ssi != 0 && Supplies(w) && i < MAX_CALLS && SetupSlot(f, ssi, cp, group).1 != i
    ensures Setup(f, ssi, cp, group, w).0.slots[i] == f.slots[i]
  {
    SetupSlotElsewhere(f, ssi, cp, group, i);
    SetupTouchesOne(f, ssi, cp, group, w, i, SetupSlot(f, ssi, cp, group).0, SetupSlot(f, ssi, cp, group).1);
  }

  lemma SetupTouchesOne(f: Fsm, ssi: nat, cp: nat, group: bool, w: World, i: nat, g: Fsm, k: nat)
    requires Shape(f) && Supplies(w) && i < MAX_CALLS && (g, k) == SetupSlot(f, ssi, cp, group) && k != i
    ensures Setup(f, ssi, cp, group, w).0.slots[i] == g.slots[i]
  {
  }

  lemma GrantedSlots(f: Fsm, i: nat, w: World)
    requires Shape(f) && i < MAX_CALLS && Supplies(w)
    ensures Granted(f, i, w).slots == f.slots[i := f.slots[i].(state := Talker, lastActivity := w.clock[0])]
  {
  }

  lemma AnsweredSlots(f: Fsm, i: nat, w: World)
    requires Shape(f) && i < MAX_CALLS && Supplies(w)
    ensures Answered(f, i, w).slots == f.slots[i := f.slots[i].(state := Connected, stage := 0, lastActivity := w.clock[0])]
  {
  }

  lemma EndedSlots(f: Fsm, i: nat, cause: nat, w: World)
    requires Shape(f) && i < MAX_CALLS && Supplies(w)
    ensures Ended(f, i, cause, w).slots == f.slots[i := EMPTY]
  {
  }

  lemma DemandKeepsPlan(f: Fsm, ssi: nat, callId: nat, w: World, i: nat)
    requires Inv(f) && Supplies(w) && i < MAX_CALLS
    ensures PlanKept(f.slots[i], TxDemand(f, ssi, callId, w).0.slots[i])
  {
    OwnPlan(f.slots[i]);
    var own, other := Find(f.slots, BySsi(ssi), 0), Find(f.slots, ByCallId(callId), 0);
    var k := if own < MAX_CALLS then own else other;
    if k < MAX_CALLS {
      var s := if own < MAX_CALLS then f.slots[k] else f.slots[k].(ssi := ssi, ns := 0, nr := 0);
      GrantedSlots(Put(f, k, s.(ns := Flip(s.ns))), k, w);
    }
  }

  lemma CeasedKeepsPlan(f: Fsm, ssi: nat, w: World, i: nat)
    requires Inv(f) && Supplies(w) && i < MAX_CALLS
    ensures PlanKept(f.slots[i], TxCeased(f, ssi, w).0.slots[i])
  {
    OwnPlan(f.slots[i]);
  }

  lemma OwnPlan(s: Slot)
    requires s == EMPTY || s.ssi != 0
    ensures PlanKept(s, s)
  {
    if s == EMPTY {
      assert s.stage == 0;
    }
  }

  lemma AnsweredPlan(slots: seq<Slot>, k: nat, now: nat, i: nat)
    requires k < |slots| && i < |slots| && PlanKept(slots[i], slots[i])
    ensures PlanKept(slots[i], slots[k := slots[k].(state := Connected, stage := 0, lastActivity := now)][i])
  {
  }

  lemma AnswerKeepsPlan(f: Fsm, ssi: nat, callId: nat, w: World, i: nat)
    requires Inv(f) && Supplies(w) && i < MAX_CALLS
    ensures PlanKept(f.slots[i], Answer(f, ssi, callId, w).0.slots[i])
  {
    OwnPlan(f.slots[i]);
    var own, other := Find(f.slots, BySsi(ssi), 0), Find(f.slots, ByCallId(callId), 0);
    var k := if own < MAX_CALLS then own else other;
    if k < MAX_CALLS {
      AnsweredSlots(f, k, w);
      AnsweredPlan(f.slots, k, w.clock[0], i);
    }
  }

  lemma ReleaseKeepsPlan(f: Fsm, ssi: nat, cause: nat, w: World, i: nat)
    requires Inv(f) && Supplies(w) && i < MAX_CALLS
    ensures PlanKept(f.slots[i], Release(f, ssi, cause, w).0.slots[i])
  {
    OwnPlan(f.slots[i]);
    var k := Find(f.slots, BySsi(ssi), 0);
    if k < MAX_CALLS {
      EndedSlots(Put(f, k, f.slots[k].(ns := Flip(f.slots[k].ns))), k, cause, w);
    }
  }

  lemma HandledFollowsPlan(f: Fsm, ssi: nat, p: Uplink, w: World, i: nat)
    requires Inv(f) && Supplies(w) && i < MAX_CALLS && !Restarts(f, Uplinked(ssi, p, w), i)
    ensures PlanKept(f.slots[i], Handled(f, ssi, p, w).0.slots[i])
  {
    OwnPlan(f.slots[i]);
    match p
    case USetup(calledType, calledSsi, ct) =>
      if ssi != 0 {
        var cp := CalledSsi(calledType, calledSsi);
        SetupElsewhere(f, ssi, cp, IsGroupCall(cp, ct, w.groups), w, i);
      }
    case UTxDemand(callId) => DemandKeepsPlan(f, ssi, callId, w, i);
    case UTxCeased => CeasedKeepsPlan(f, ssi, w, i);
    case UConnect(callId) => AnswerKeepsPlan(f, ssi, callId, w, i);
    case URelease(cause) => ReleaseKeepsPlan(f, ssi, cause, w, i);
    case UDisconnect(cause) => ReleaseKeepsPlan(f, ssi, cause, w, i);
    case UAlert(_) =>
    case Other =>
  }

  lemma TickFollowsPlan(f: Fsm, now: nat, bursts: seq<Burst>, later: nat, i: nat)
    requires Inv(f) && |bursts| == MAX_CALLS && i < MAX_CALLS
    ensures FollowsPlan(f.slots[i], StagedIn(f, Tick(now, bursts, later), i), Ticked(f, now, bursts, later).slots[i])
  {
    PlanBefore(f, now, bursts, i, i);
    TurnsKeep(f, now, bursts, i);
    TurnFollowsPlan(Turns(f, now, bursts, i), i, now, bursts[i]);
    PlanAfter(f, now, bursts, MAX_CALLS, i);
    PlanChain(f.slots[i], Turns(f, now, bursts, i).slots[i], Turns(f, now, bursts, i + 1).slots[i],
              Ticked(f, now, bursts, later).slots[i], now);
  }

  lemma PlanChain(s: Slot, t: Slot, v: Slot, u: Slot, now: nat)
    requires SamePlan(s, t) && SamePlan(v, u)
    requires (v.ssi == 0 ==> Remaining(v) == []) && (t.ssi == 0 ==> v == t)
    requires v.ssi != 0 ==> Kinds(Staged(t, now)) + Remaining(v) == Remaining(t)
    requires v.ssi != 0 && Staged(t, now) == [] ==> v.next == t.next
    requires Staged(t, now) != [] && Remaining(v) != [] ==> v.next == Later(now)
    ensures FollowsPlan(s, Staged(t, now), u)
  {
  }

  /** The same as far as the sequencer is concerned. */
  predicate SamePlan(s: Slot, u: Slot) {
    u.ssi == s.ssi && u.stage == s.stage && u.next == s.next
  }

  lemma OtherTurnSamePlan(f: Fsm, i: nat, j: nat, now: nat, b: Burst)
    requires Shape(f) && i < MAX_CALLS && j < MAX_CALLS && i != j
    ensures SamePlan(f.slots[j], Turn(f, i, now, b).slots[j])
  {
    assert Sequenced(f, i, now).slots[j] == f.slots[j];
  }

  lemma {:induction false} PlanBefore(f: Fsm, now: nat, bursts: seq<Burst>, n: nat, j: nat)
    requires Shape(f) && n <= j < MAX_CALLS == |bursts|
    ensures SamePlan(f.slots[j], Turns(f, now, bursts, n).slots[j])
  {
    if n > 0 {
      PlanBefore(f, now, bursts, n - 1, j);
      OtherTurnSamePlan(Turns(f, now, bursts, n - 1), n - 1, j, now, bursts[n - 1]);
    }
  }

  lemma {:induction false} PlanAfter(f: Fsm, now: nat, bursts: seq<Burst>, n: nat, j: nat)
    requires Shape(f) && j < n <= MAX_CALLS == |bursts|
    ensures SamePlan(Turns(f, now, bursts, j + 1).slots[j], Turns(f, now, bursts, n).slots[j])
  {
    if n > j + 1 {
      PlanAfter(f, now, bursts, n - 1, j);
      OtherTurnSamePlan(Turns(f, now, bursts, n - 1), n - 1, j, now, bursts[n - 1]);
    }
  }

  lemma NextFollowsPlan(f: Fsm, step: Step, i: nat)
    requires Inv(f) && StepOk(step) && i < MAX_CALLS && !Restarts(f, step, i)
    ensures FollowsPlan(f.slots[i], StagedIn(f, step, i), Next(f, step).slots[i])
  {
    match step
    case Uplinked(ssi, p, w) => HandledFollowsPlan(f, ssi, p, w, i);
    case Tick(now, bursts, later) => TickFollowsPlan(f, now, bursts, later, i);
    case Voice(b) => assert f.slots[i] == EMPTY || f.slots[i].ssi != 0;
    case Late(_) => assert f.slots[i] == EMPTY || f.slots[i].ssi != 0;
  }

  /** On the 32-bit clock the times are due one after the other, each by the set-up spacing after the one before. */
  predicate Spaced(r: seq<Sent>, earliest: nat)
    decreases |r|
  {
    |r| == 0 || (Due(earliest, r[0].at) && Spaced(r[1..], Later(r[0].at)))
  }

  /** Across wrap-arounds of the clock, due means 113 ms later, for moments less than 2^31 ms apart. */
  lemma DueMeansSpaced(before: nat, now: nat)
    requires before <= now < before + 0x8000_0000
    ensures Due(Later(before % CLOCK_RANGE), now % CLOCK_RANGE) <==> now >= before + SETUP_SPACING_MS
  {
    var d := now - before - SETUP_SPACING_MS;
    Congruent(before, SETUP_SPACING_MS, now);
    SmallResidue(d);
  }

  lemma Congruent(a: nat, k: nat, b: nat)
    ensures (b % CLOCK_RANGE - (a % CLOCK_RANGE + k) % CLOCK_RANGE) % CLOCK_RANGE == (b - a - k) % CLOCK_RANGE
  {
    var q, r, t := b / CLOCK_RANGE, a / CLOCK_RANGE, (a % CLOCK_RANGE + k) / CLOCK_RANGE;
    assert a == r * CLOCK_RANGE + a % CLOCK_RANGE && b == q * CLOCK_RANGE + b % CLOCK_RANGE;
    WholeTurns(b - a - k, q - r - t);
  }

  lemma WholeTurns(x: int, m: int)
    ensures (x - m * CLOCK_RANGE) % CLOCK_RANGE == x % CLOCK_RANGE
  {
  }

  lemma SmallResidue(d: int)
    requires -0x8000_0000 <= d < 0x8000_0000
    ensures d % CLOCK_RANGE < 0x8000_0000 <==> d >= 0
  {
  }

  /**
   * Until the next U-SETUP on slot i, the ticks of any run stage a prefix of its plan, each PDU at
   * least the set-up spacing after the one before.
   */
  lemma {:induction false} RunFollowsPlan(f: Fsm, steps: seq<Step>, i: nat)
    requires Inv(f) && i < MAX_CALLS && (forall k :: 0 <= k < |steps| ==> StepOk(steps[k])) && NoRestart(f, steps, i)
    ensures var r := StagedRun(f, steps, i);
            Kinds(r) <= Remaining(f.slots[i]) && Spaced(r, f.slots[i].next)
    decreases |steps|
  {
    if |steps| > 0 {
      var g, r := Next(f, steps[0]), StagedIn(f, steps[0], i);
      NextKeeps(f, steps[0]);
      NextFollowsPlan(f, steps[0], i);
      RunFollowsPlan(g, steps[1..], i);
      var rest := StagedRun(g, steps[1..], i);
      PlanJoins(f.slots[i], r, g.slots[i], rest);
    }
  }

  lemma PlanJoins(s: Slot, r: seq<Sent>, u: Slot, rest: seq<Sent>)
    requires FollowsPlan(s, r, u) && Kinds(rest) <= Remaining(u) && Spaced(rest, u.next)
    ensures Kinds(r + rest) <= Remaining(s) && Spaced(r + rest, s.next)
  {
    if r == [] {
      assert r + rest == rest;
    } else {
      assert (r + rest)[1..] == rest;
      assert Kinds(r + rest) == [r[0].kind] + Kinds(rest);
      assert Remaining(s) == [Remaining(s)[0]] + Remaining(s)[1..];
    }
  }

  /** A group set-up leaves exactly D-CONNECT and D-SETUP to the sequencer, an individual one only D-SETUP. */
  lemma SetupPlans(f: Fsm, ssi: nat, cp: nat, group: bool, w: World)
    requires Inv(f) && ssi != 0 && Supplies(w) && SetupSlot(f, ssi, cp, group).1 < MAX_CALLS
    ensures var u := Setup(f, ssi, cp, group, w).0.slots[SetupSlot(f, ssi, cp, group).1];
            && Remaining(u) == (if group then [DConnect, DSetup] else [DSetup])
            && u.next == Later(w.clock[1]) && u.ssi == ssi
  {
    SetupSlotShape(f, ssi, cp, group);
  }

  /** No tick ever stages D-CONNECT for an individual call. */
  lemma NoConnectWhileRinging(f: Fsm, i: nat, now: nat)
    requires Inv(f) && i < MAX_CALLS && f.slots[i].gssi == 0
    ensures forall k :: 0 <= k < |Staged(f.slots[i], now)| ==> Staged(f.slots[i], now)[k].kind == DSetup
  {
    assert f.slots[i] == EMPTY || SlotOk(f.slots[i]);
  }
}
