/** Who gets a D-CONNECT: callers of group calls, and others only in answer to U-CONNECT. */
module CallConnects {
  import opened CallModel
  import opened CallInvariant
  import opened CallRuns

  /** The mobiles that own a group call. */
  ghost function GroupCallers(slots: seq<Slot>): set<nat> {
    set i | 0 <= i < |slots| && slots[i].ssi != 0 && slots[i].gssi != 0 :: slots[i].ssi
  }

  predicate ConnectOk(e: Event, callers: set<nat>) {
    e.Submitted? && e.pdu.kind.DConnect? ==> e.pdu.target in callers
  }

  /** From f to g the log only grows, and every new D-CONNECT goes to one of the callers. */
  ghost predicate ConnectsTo(f: Fsm, g: Fsm, callers: set<nat>) {
    && |f.log| <= |g.log| && g.log[..|f.log|] == f.log
    && forall k :: |f.log| <= k < |g.log| ==> ConnectOk(g.log[k], callers)
  }

  lemma Then(f: Fsm, g: Fsm, h: Fsm, callers: set<nat>)
    requires ConnectsTo(f, g, callers) && ConnectsTo(g, h, callers)
    ensures ConnectsTo(f, h, callers)
  {
    forall k | |f.log| <= k < |h.log|
      ensures ConnectOk(h.log[k], callers)
    {
      assert k < |g.log| ==> h.log[k] == h.log[..|g.log|][k];
    }
    assert h.log[..|f.log|] == h.log[..|g.log|][..|f.log|];
  }

  lemma SubmitConnects(f: Fsm, kind: Kind, i: nat, cause: nat, callers: set<nat>)
    requires i < |f.slots| && |f.aach| == 5 && (kind.DConnect? ==> f.slots[i].ssi in callers)
    ensures ConnectsTo(f, Submit(f, kind, i, cause), callers)
  {
  }

  lemma WritesConnect(f: Fsm, v: set<nat>, callers: set<nat>)
    ensures ConnectsTo(f, WriteMask(f, v), callers) && ConnectsTo(f, Emit(f, ClearFiller), callers)
  {
  }

  // ---- Uplink PDUs ----

  lemma GroupSetupConnects(f: Fsm, i: nat, w: World, callers: set<nat>)
    requires Shape(f) && i < MAX_CALLS && Supplies(w) && f.slots[i].ssi in callers
    ensures ConnectsTo(f, GroupSetup(f, i, w), callers)
  {
    SubmitConnects(f, DConnect, i, 0, callers);
    var g := Submit(f, DConnect, i, 0);
    var h := Put(g, i, g.slots[i].(stage := 1, next := Later(w.clock[1]), lastActivity := w.clock[2],
                                   state := Connected));
    var v := VoiceMask(h.slots, w.clock[3], MAX_CALLS);
    WritesConnect(h, v, callers);
    WritesConnect(WriteMask(h, v), v, callers);
    Then(f, h, WriteMask(h, v), callers);
    Then(f, WriteMask(h, v), GroupSetup(f, i, w), callers);
  }

  lemma IndividualSetupConnects(f: Fsm, i: nat, w: World, callers: set<nat>)
    requires Shape(f) && i < MAX_CALLS && Supplies(w)
    ensures ConnectsTo(f, IndividualSetup(f, i, w), callers)
  {
    var g0 := Emit(f, SlotGrant(f.slots[i].ssi));
    var g1 := Submit(g0, DCallProceeding, i, 0);
    var g2 := Submit(g1, DAlert, i, 0);
    var g3 := Submit(g2, DSetup, i, 0);
    SubmitConnects(g0, DCallProceeding, i, 0, callers);
    Then(f, g0, g1, callers);
    SubmitConnects(g1, DAlert, i, 0, callers);
    Then(f, g1, g2, callers);
    SubmitConnects(g2, DSetup, i, 0, callers);
    Then(f, g2, g3, callers);
  }

  lemma SetupConnects(f: Fsm, ssi: nat, cp: nat, group: bool, w: World)
    requires Inv(f) && ssi != 0 && Supplies(w) && (group ==> cp != 0)
    ensures var g := Setup(f, ssi, cp, group, w).0; ConnectsTo(f, g, GroupCallers(g.slots))
  {
    var (g, i) := SetupSlot(f, ssi, cp, group);
    var h := Setup(f, ssi, cp, group, w).0;
    var callers := GroupCallers(h.slots);
    assert ConnectsTo(f, g, callers);
    if i < MAX_CALLS {
      var s := g.slots[i].(gssi := if group then cp else 0, issi := if group then 0 else cp, state := Connecting,
                           setupAt := w.clock[0], ceasedAt := 0);
      SetupSlotShape(f, ssi, cp, group);
      if group {
        assert h.slots[i].ssi == ssi && h.slots[i].gssi == cp;
        GroupSetupConnects(Put(g, i, s), i, w, callers);
      } else {
        IndividualSetupConnects(Put(g, i, s), i, w, callers);
      }
      Then(f, Put(g, i, s), h, callers);
    }
  }

  lemma GrantedConnects(f: Fsm, i: nat, w: World, callers: set<nat>)
    requires Shape(f) && i < MAX_CALLS && Supplies(w)
    ensures ConnectsTo(f, Granted(f, i, w), callers)
  {
    SubmitConnects(f, DTxGranted, i, 0, callers);
    var g := Submit(f, DTxGranted, i, 0);
    var h := Put(g, i, g.slots[i].(state := Talker, lastActivity := w.clock[0]));
    WritesConnect(h, VoiceMask(h.slots, w.clock[1], MAX_CALLS), callers);
    Then(f, h, Granted(f, i, w), callers);
  }

  lemma EndedConnects(f: Fsm, i: nat, cause: nat, w: World, callers: set<nat>)
    requires Shape(f) && i < MAX_CALLS && Supplies(w)
    ensures ConnectsTo(f, Ended(f, i, cause, w), callers)
  {
    SubmitConnects(f, DRelease, i, cause, callers);
    var g := Freed(Submit(f, DRelease, i, cause), i);
    Then(f, Submit(f, DRelease, i, cause), g, callers);
    var v := VoiceMask(g.slots, w.clock[0], MAX_CALLS);
    WritesConnect(g, v, callers);
    WritesConnect(WriteMask(g, v), v, callers);
    Then(f, g, WriteMask(g, v), callers);
    Then(f, WriteMask(g, v), Emit(WriteMask(g, v), ClearFiller), callers);
  }

  lemma TxCeasedConnects(f: Fsm, ssi: nat, w: World, callers: set<nat>)
    requires Shape(f) && Supplies(w)
    ensures ConnectsTo(f, TxCeased(f, ssi, w).0, callers)
  {
    var i := Find(f.slots, BySsi(ssi), 0);
    if i < MAX_CALLS {
      var s, t := f.slots[i], w.clock[0];
      var g := Put(f, i, s.(state := Connected, ceasedAt := Orelse(s.ceasedAt, t), lastActivity := t));
      var g1 := Submit(g, DTxCeased, i, 0);
      var g2 := Submit(g1, DTxCeased, i, 0);
      SubmitConnects(g, DTxCeased, i, 0, callers);
      SubmitConnects(g1, DTxCeased, i, 0, callers);
      SubmitConnects(g2, DTxCeased, i, 0, callers);
      Then(f, g1, g2, callers);
      Then(f, g2, Submit(g2, DTxCeased, i, 0), callers);
    }
  }

  lemma TxDemandConnects(f: Fsm, ssi: nat, callId: nat, w: World, callers: set<nat>)
    requires Shape(f) && Supplies(w)
    ensures ConnectsTo(f, TxDemand(f, ssi, callId, w).0, callers)
  {
    var own, other := Find(f.slots, BySsi(ssi), 0), Find(f.slots, ByCallId(callId), 0);
    var i := if own < MAX_CALLS then own else other;
    if i < MAX_CALLS {
      var s := if own < MAX_CALLS then f.slots[i] else f.slots[i].(ssi := ssi, ns := 0, nr := 0);
      GrantedConnects(Put(f, i, s.(ns := Flip(s.ns))), i, w, callers);
    }
  }

  lemma ReleaseConnects(f: Fsm, ssi: nat, cause: nat, w: World, callers: set<nat>)
    requires Shape(f) && Supplies(w)
    ensures ConnectsTo(f, Release(f, ssi, cause, w).0, callers)
  {
    var i := Find(f.slots, BySsi(ssi), 0);
    if i < MAX_CALLS {
      EndedConnects(Put(f, i, f.slots[i].(ns := Flip(f.slots[i].ns))), i, cause, w, callers);
    }
  }

  lemma HandledConnects(f: Fsm, ssi: nat, p: Uplink, w: World)
    requires Inv(f) && Supplies(w) && !p.UConnect?
    ensures var g := Handled(f, ssi, p, w).0; ConnectsTo(f, g, GroupCallers(f.slots) + GroupCallers(g.slots))
  {
    var callers := GroupCallers(f.slots) + GroupCallers(Handled(f, ssi, p, w).0.slots);
    match p
    case USetup(calledType, calledSsi, ct) =>
      if ssi != 0 {
        var cp := CalledSsi(calledType, calledSsi);
        SetupConnects(f, ssi, cp, IsGroupCall(cp, ct, w.groups), w);
      }
    case UTxDemand(callId) => TxDemandConnects(f, ssi, callId, w, callers);
    case UTxCeased => TxCeasedConnects(f, ssi, w, callers);
    case URelease(cause) => ReleaseConnects(f, ssi, cause, w, callers);
    case UDisconnect(cause) => ReleaseConnects(f, ssi, cause, w, callers);
    case UAlert(_) =>
    case Other =>
  }

  // ---- Tick and late entry ----

  lemma SequencedConnects(f: Fsm, i: nat, now: nat, callers: set<nat>)
    requires Shape(f) && i < MAX_CALLS && (f.slots[i].stage == 1 ==> f.slots[i].ssi in callers)
    ensures ConnectsTo(f, Sequenced(f, i, now), callers)
  {
    if f.slots[i].stage == 1 {
      SubmitConnects(f, DConnect, i, 0, callers);
    } else {
      SubmitConnects(f, DSetup, i, 0, callers);
    }
  }

  lemma TurnConnects(f: Fsm, i: nat, now: nat, b: Burst, callers: set<nat>)
    requires Shape(f) && i < MAX_CALLS && (f.slots[i].stage == 1 ==> f.slots[i].ssi in callers)
    ensures ConnectsTo(f, Turn(f, i, now, b), callers)
  {
    SequencedConnects(f, i, now, callers);
    RestOfTurn(f, i, now, b, callers);
    if f.slots[i].ssi != 0 {
      Then(f, Sequenced(f, i, now), Turn(f, i, now, b), callers);
    }
  }

  lemma RestOfTurn(f: Fsm, i: nat, now: nat, b: Burst, callers: set<nat>)
    requires Shape(f) && i < MAX_CALLS
    ensures f.slots[i].ssi != 0 ==> ConnectsTo(Sequenced(f, i, now), Turn(f, i, now, b), callers)
  {
    var g := Sequenced(f, i, now);
    SubmitConnects(g, DRelease, i, 0, callers);
    Then(g, Submit(g, DRelease, i, 0), Freed(Submit(g, DRelease, i, 0), i), callers);
  }

  lemma {:induction false} TurnsConnect(f: Fsm, now: nat, bursts: seq<Burst>, n: nat)
    requires Inv(f) && n <= MAX_CALLS == |bursts| && HeardSince(bursts, now)
    ensures ConnectsTo(f, Turns(f, now, bursts, n), GroupCallers(f.slots))
  {
    if n > 0 {
      var g := Turns(f, now, bursts, n - 1);
      TurnsConnect(f, now, bursts, n - 1);
      BeforeTurn(f, now, bursts, n - 1, n - 1);
      StageOneIsGroup(f, n - 1);
      TurnConnects(g, n - 1, now, bursts[n - 1], GroupCallers(f.slots));
      Then(f, g, Turns(f, now, bursts, n), GroupCallers(f.slots));
    }
  }

  lemma StageOneIsGroup(f: Fsm, i: nat)
    requires Inv(f) && i < MAX_CALLS
    ensures f.slots[i].stage == 1 ==> f.slots[i].ssi in GroupCallers(f.slots)
  {
    assert f.slots[i] == EMPTY || SlotOk(f.slots[i]);
  }

  lemma {:induction false} AnnouncedConnects(f: Fsm, gssi: nat, n: nat, callers: set<nat>)
    requires Shape(f) && n <= MAX_CALLS
    ensures ConnectsTo(f, Announced(f, gssi, n), callers)
  {
    if n > 0 {
      var g := Announced(f, gssi, n - 1);
      AnnouncedConnects(f, gssi, n - 1, callers);
      SubmitConnects(g, DSetup, n - 1, 0, callers);
      if JoinsLate(g.slots[n - 1], gssi) {
        Then(f, g, Announced(f, gssi, n), callers);
      }
    }
  }

  /**
   * In every step other than U-CONNECT a D-CONNECT goes only to a mobile that owns a group call
   * before or after the step; the caller of an individual call gets one only when it is answered.
   */
  lemma OnlyGroupsConnectUnanswered(f: Fsm, step: Step)
    requires Inv(f) && StepOk(step) && !(step.Uplinked? && step.pdu.UConnect?)
    requires step.Tick? ==> HeardSince(step.bursts, step.now)
    ensures var g := Next(f, step); ConnectsTo(f, g, GroupCallers(f.slots) + GroupCallers(g.slots))
  {
    var callers := GroupCallers(f.slots) + GroupCallers(Next(f, step).slots);
    match step
    case Uplinked(ssi, p, w) => HandledConnects(f, ssi, p, w);
    case Tick(now, bursts, later) =>
      var g := Turns(f, now, bursts, MAX_CALLS);
      TurnsConnect(f, now, bursts, MAX_CALLS);
      WritesConnect(g, VoiceMask(g.slots, later, MAX_CALLS), callers);
      Then(f, g, Next(f, step), callers);
    case Voice(_) =>
    case Late(gssi) => AnnouncedConnects(f, gssi, MAX_CALLS, callers);
  }
}
