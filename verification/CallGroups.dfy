/** When two running calls can end up with the same group. */
module CallGroups {
  import opened CallModel
  import opened CallInvariant
  import opened CallRuns

  predicate SameGroup(s: Slot, u: Slot) {
    s.ssi != 0 && u.ssi != 0 && s.gssi != 0 && s.gssi == u.gssi
  }

  /** No two calls serve the same group. */
  predicate DistinctGroups(slots: seq<Slot>) {
    forall i, j :: 0 <= i < |slots| && 0 <= j < |slots| && i != j ==> !SameGroup(slots[i], slots[j])
  }

  /** The caller already owns a slot while another slot runs the called group's call. */
  predicate GroupRunsElsewhere(f: Fsm, ssi: nat, cp: nat)
    requires Shape(f)
  {
    var own := Find(f.slots, BySsi(ssi), 0);
    own < MAX_CALLS && exists j :: 0 <= j < MAX_CALLS && j != own && Matches(f.slots[j], ByGssi(cp))
  }

  lemma SetupSlots(f: Fsm, ssi: nat, cp: nat, group: bool, w: World, j: nat)
    requires Inv(f) && ssi != 0 && Supplies(w) && j < MAX_CALLS
    ensures var i, u := SetupSlot(f, ssi, cp, group).1, Setup(f, ssi, cp, group, w).0.slots[j];
            if j == i then u.ssi == ssi && u.gssi == (if group then cp else 0) else u == f.slots[j]
  {
    if SetupSlot(f, ssi, cp, group).1 == j {
      SetupSlotShape(f, ssi, cp, group);
    } else {
      SetupElsewhere(f, ssi, cp, group, w, j);
    }
  }

  /**
   * A set-up keeps the groups distinct if and only if it is not a group call from a mobile that
   * owns a slot while the group's call runs on another one: only mobiles without a slot are
   * checked for a running call.
   */
  lemma SetupKeepsGroups(f: Fsm, ssi: nat, cp: nat, group: bool, w: World)
    requires Inv(f) && ssi != 0 && Supplies(w) && DistinctGroups(f.slots) && (group ==> cp != 0)
    ensures DistinctGroups(Setup(f, ssi, cp, group, w).0.slots) <==> !(group && GroupRunsElsewhere(f, ssi, cp))
  {
    var g := Setup(f, ssi, cp, group, w).0;
    var i := SetupSlot(f, ssi, cp, group).1;
    forall j | 0 <= j < MAX_CALLS
      ensures if j == i then g.slots[j].ssi == ssi && g.slots[j].gssi == (if group then cp else 0)
              else g.slots[j] == f.slots[j]
    {
      SetupSlots(f, ssi, cp, group, w, j);
    }
    OthersOfGroup(f, ssi, cp, group, i);
    ReplacedGroups(f.slots, g.slots, i, cp, group);
  }

  /** Slots of the called group other than the set-up slot exist exactly when the group runs elsewhere. */
  lemma OthersOfGroup(f: Fsm, ssi: nat, cp: nat, group: bool, i: nat)
    requires Inv(f) && ssi != 0 && DistinctGroups(f.slots) && (group ==> cp != 0) && i == SetupSlot(f, ssi, cp, group).1
    ensures group && i < MAX_CALLS ==>
              (GroupRunsElsewhere(f, ssi, cp) <==> exists j :: 0 <= j < MAX_CALLS && j != i && Matches(f.slots[j], ByGssi(cp)))
    ensures i == MAX_CALLS ==> !GroupRunsElsewhere(f, ssi, cp)
  {
    var own, running := Find(f.slots, BySsi(ssi), 0), Find(f.slots, ByGssi(cp), 0);
    if own == MAX_CALLS && group && running < MAX_CALLS {
      forall j | 0 <= j < MAX_CALLS && j != running
        ensures !Matches(f.slots[j], ByGssi(cp))
      {
        assert !SameGroup(f.slots[j], f.slots[running]);
      }
    }
  }

  lemma ReplacedGroups(slots: seq<Slot>, after: seq<Slot>, i: nat, cp: nat, group: bool)
    requires |slots| == |after| == MAX_CALLS && DistinctGroups(slots) && (group ==> cp != 0)
    requires forall j :: 0 <= j < MAX_CALLS ==>
               if j == i then after[j].ssi != 0 && after[j].gssi == (if group then cp else 0) else after[j] == slots[j]
    ensures DistinctGroups(after) <==>
              !(group && i < MAX_CALLS && exists j :: 0 <= j < MAX_CALLS && j != i && Matches(slots[j], ByGssi(cp)))
  {
    if j :| group && i < MAX_CALLS && 0 <= j < MAX_CALLS && j != i && Matches(slots[j], ByGssi(cp)) {
      assert SameGroup(after[i], after[j]);
    } else {
      forall j, k | 0 <= j < MAX_CALLS && 0 <= k < MAX_CALLS && j != k
        ensures !SameGroup(after[j], after[k])
      {
        assert j != i && k != i ==> !SameGroup(slots[j], slots[k]);
      }
    }
  }

  // ---- All other steps ----

  /** Slot u serves no group, or the one that s served before. */
  predicate GroupKept(s: Slot, u: Slot) {
    u.ssi == 0 || u.gssi == 0 || (s.ssi != 0 && u.gssi == s.gssi)
  }

  predicate GroupsKept(slots: seq<Slot>, after: seq<Slot>) {
    |slots| == |after| && forall j :: 0 <= j < |slots| ==> GroupKept(slots[j], after[j])
  }

  lemma GroupsKeptTwice(slots: seq<Slot>, after: seq<Slot>, later: seq<Slot>)
    requires GroupsKept(slots, after) && GroupsKept(after, later)
    ensures GroupsKept(slots, later)
  {
    forall j | 0 <= j < |slots|
      ensures GroupKept(slots[j], later[j])
    {
      assert GroupKept(slots[j], after[j]) && GroupKept(after[j], later[j]);
    }
  }

  lemma KeptStayDistinct(slots: seq<Slot>, after: seq<Slot>)
    requires GroupsKept(slots, after) && DistinctGroups(slots)
    ensures DistinctGroups(after)
  {
    forall i, j | 0 <= i < |after| && 0 <= j < |after| && i != j
      ensures !SameGroup(after[i], after[j])
    {
      assert GroupKept(slots[i], after[i]) && GroupKept(slots[j], after[j]) && !SameGroup(slots[i], slots[j]);
    }
  }

  lemma DemandKeepsGroups(f: Fsm, ssi: nat, callId: nat, w: World)
    requires Shape(f) && Supplies(w)
    ensures GroupsKept(f.slots, TxDemand(f, ssi, callId, w).0.slots)
  {
    var own, other := Find(f.slots, BySsi(ssi), 0), Find(f.slots, ByCallId(callId), 0);
    var i := if own < MAX_CALLS then own else other;
    if i < MAX_CALLS {
      var s := if own < MAX_CALLS then f.slots[i] else f.slots[i].(ssi := ssi, ns := 0, nr := 0);
      GrantedSlots(Put(f, i, s.(ns := Flip(s.ns))), i, w);
    }
  }

  lemma AnswerKeepsGroups(f: Fsm, ssi: nat, callId: nat, w: World)
    requires Shape(f) && Supplies(w)
    ensures GroupsKept(f.slots, Answer(f, ssi, callId, w).0.slots)
  {
    var own, other := Find(f.slots, BySsi(ssi), 0), Find(f.slots, ByCallId(callId), 0);
    var i := if own < MAX_CALLS then own else other;
    if i < MAX_CALLS {
      AnsweredSlots(f, i, w);
    }
  }

  lemma ReleaseKeepsGroups(f: Fsm, ssi: nat, cause: nat, w: World)
    requires Shape(f) && Supplies(w)
    ensures GroupsKept(f.slots, Release(f, ssi, cause, w).0.slots)
  {
    var i := Find(f.slots, BySsi(ssi), 0);
    if i < MAX_CALLS {
      EndedSlots(Put(f, i, f.slots[i].(ns := Flip(f.slots[i].ns))), i, cause, w);
    }
  }

  lemma TurnKeepsGroups(f: Fsm, i: nat, now: nat, b: Burst)
    requires Shape(f) && i < MAX_CALLS
    ensures GroupsKept(f.slots, Turn(f, i, now, b).slots)
  {
    assert GroupsKept(f.slots, Sequenced(f, i, now).slots);
  }

  lemma {:induction false} TurnsKeepGroups(f: Fsm, now: nat, bursts: seq<Burst>, n: nat)
    requires Shape(f) && n <= MAX_CALLS == |bursts|
    ensures GroupsKept(f.slots, Turns(f, now, bursts, n).slots)
  {
    if n > 0 {
      var g := Turns(f, now, bursts, n - 1);
      TurnsKeepGroups(f, now, bursts, n - 1);
      TurnKeepsGroups(g, n - 1, now, bursts[n - 1]);
      GroupsKeptTwice(f.slots, g.slots, Turns(f, now, bursts, n).slots);
    }
  }

  lemma {:induction false} AnnouncedSlots(f: Fsm, gssi: nat, n: nat)
    requires Shape(f) && n <= MAX_CALLS
    ensures Announced(f, gssi, n).slots == f.slots
  {
    if n > 0 {
      AnnouncedSlots(f, gssi, n - 1);
    }
  }

  /** Every step but a set-up lets slots keep or lose their groups. */
  lemma OtherStepsKeepGroups(f: Fsm, step: Step)
    requires Shape(f) && StepOk(step) && !(step.Uplinked? && step.pdu.USetup?)
    ensures GroupsKept(f.slots, Next(f, step).slots)
  {
    match step
    case Uplinked(ssi, p, w) =>
      if ssi != 0 {
        match p
        case UTxDemand(callId) => DemandKeepsGroups(f, ssi, callId, w);
        case UConnect(callId) => AnswerKeepsGroups(f, ssi, callId, w);
        case URelease(cause) => ReleaseKeepsGroups(f, ssi, cause, w);
        case UDisconnect(cause) => ReleaseKeepsGroups(f, ssi, cause, w);
        case UTxCeased =>
        case UAlert(_) =>
        case Other =>
      }
    case Tick(now, bursts, later) => TurnsKeepGroups(f, now, bursts, MAX_CALLS);
    case Voice(_) =>
    case Late(gssi) => AnnouncedSlots(f, gssi, MAX_CALLS);
  }

  // ---- Whole runs ----

  /** A group set-up from a mobile that owns a slot while the group's call runs on another one. */
  predicate BadSetup(f: Fsm, step: Step)
    requires Shape(f)
  {
    && step.Uplinked? && step.pdu.USetup? && step.ssi != 0
    && var cp := CalledSsi(step.pdu.calledType, step.pdu.calledSsi);
       IsGroupCall(cp, step.pdu.communicationType, step.world.groups) && GroupRunsElsewhere(f, step.ssi, cp)
  }

  /** A step keeps the groups distinct if and only if it is not such a set-up. */
  lemma NextKeepsGroups(f: Fsm, step: Step)
    requires Inv(f) && StepOk(step) && DistinctGroups(f.slots)
    ensures DistinctGroups(Next(f, step).slots) <==> !BadSetup(f, step)
  {
    if step.Uplinked? && step.pdu.USetup? {
      if step.ssi != 0 {
        var cp := CalledSsi(step.pdu.calledType, step.pdu.calledSsi);
        SetupKeepsGroups(f, step.ssi, cp, IsGroupCall(cp, step.pdu.communicationType, step.world.groups), step.world);
      }
    } else {
      OtherStepsKeepGroups(f, step);
      KeptStayDistinct(f.slots, Next(f, step).slots);
    }
  }

  /** The groups are distinct at the start and after every step of a run. */
  predicate AlwaysDistinct(f: Fsm, steps: seq<Step>)
    requires Shape(f) && forall k :: 0 <= k < |steps| ==> StepOk(steps[k])
    decreases |steps|
  {
    DistinctGroups(f.slots) && (|steps| > 0 ==> AlwaysDistinct(Next(f, steps[0]), steps[1..]))
  }

  predicate HasBadSetup(f: Fsm, steps: seq<Step>)
    requires Shape(f) && forall k :: 0 <= k < |steps| ==> StepOk(steps[k])
    decreases |steps|
  {
    |steps| > 0 && (BadSetup(f, steps[0]) || HasBadSetup(Next(f, steps[0]), steps[1..]))
  }

  /** Two calls come to serve one group in a run if and only if some step of it is such a set-up. */
  lemma {:induction false} RunKeepsGroups(f: Fsm, steps: seq<Step>)
    requires Inv(f) && DistinctGroups(f.slots) && forall k :: 0 <= k < |steps| ==> StepOk(steps[k])
    ensures AlwaysDistinct(f, steps) <==> !HasBadSetup(f, steps)
    decreases |steps|
  {
    if |steps| > 0 {
      NextKeepsGroups(f, steps[0]);
      NextKeeps(f, steps[0]);
      if !BadSetup(f, steps[0]) {
        RunKeepsGroups(Next(f, steps[0]), steps[1..]);
      } else {
        NotDistinct(Next(f, steps[0]), steps[1..]);
      }
    }
  }

  lemma NotDistinct(f: Fsm, steps: seq<Step>)
    requires Shape(f) && !DistinctGroups(f.slots) && forall k :: 0 <= k < |steps| ==> StepOk(steps[k])
    ensures !AlwaysDistinct(f, steps)
  {
  }

  // ---- A run in which it happens ----

  function At(t: nat): World {
    World([t, t, t, t], [0, 0, 0], {10, 20})
  }

  /** Mobile 1 calls group 10, mobile 2 calls group 20, then mobile 2 calls group 10. */
  lemma TwoCallsOneGroup()
    ensures var f := Handled(Start(), 1, USetup(1, 10, 1), At(0)).0;
            var g := Handled(f, 2, USetup(1, 20, 1), At(1)).0;
            var h := Handled(g, 2, USetup(1, 10, 1), At(2)).0;
            DistinctGroups(g.slots) && !DistinctGroups(h.slots)
  {
    StartHolds();
    GroupSetupHandled(Start(), 1, 10, At(0));
    var f := Setup(Start(), 1, 10, true, At(0)).0;
    SetupKeeps(Start(), 1, 10, true, At(0));
    FirstSetup(Start(), 1, 10, At(0));
    SetupKeepsGroups(Start(), 1, 10, true, At(0));
    GroupSetupHandled(f, 2, 20, At(1));
    SecondThenThird(f, At(1), At(2));
    GroupSetupHandled(Setup(f, 2, 20, true, At(1)).0, 2, 10, At(2));
  }

  lemma GroupSetupHandled(f: Fsm, ssi: nat, cp: nat, w: World)
    requires Shape(f) && ssi != 0 && 0 < cp < 0x1000000 && Supplies(w) && cp in w.groups
    ensures Handled(f, ssi, USetup(1, cp, 1), w) == Setup(f, ssi, cp, true, w)
  {
  }

  lemma SecondThenThird(f: Fsm, w: World, w': World)
    requires Inv(f) && Supplies(w) && Supplies(w') && DistinctGroups(f.slots) && f.slots[0].ssi == 1 && f.slots[0].gssi == 10
    requires forall j :: 1 <= j < MAX_CALLS ==> f.slots[j] == EMPTY
    ensures var g := Setup(f, 2, 20, true, w).0;
            DistinctGroups(g.slots) && !DistinctGroups(Setup(g, 2, 10, true, w').0.slots)
  {
    var g := Setup(f, 2, 20, true, w).0;
    SetupKeeps(f, 2, 20, true, w);
    SecondSetup(f, 2, 20, w);
    SetupKeepsGroups(f, 2, 20, true, w);
    FirstTwo(g.slots);
    SetupKeepsGroups(g, 2, 10, true, w');
  }

  lemma FirstTwo(slots: seq<Slot>)
    requires |slots| >= 2 && slots[0].ssi == 1 && slots[0].gssi == 10 && slots[1].ssi == 2
    ensures Matches(slots[0], ByGssi(10)) && Find(slots, BySsi(2), 0) == 1
  {
  }

  lemma FirstSetup(f: Fsm, ssi: nat, cp: nat, w: World)
    requires Inv(f) && ssi != 0 && cp != 0 && Supplies(w) && forall j :: 0 <= j < MAX_CALLS ==> f.slots[j] == EMPTY
    ensures SetupSlot(f, ssi, cp, true).1 == 0
    ensures var g := Setup(f, ssi, cp, true, w).0;
            g.slots[0].ssi == ssi && g.slots[0].gssi == cp && forall j :: 1 <= j < MAX_CALLS ==> g.slots[j] == EMPTY
  {
    assert Find(f.slots, Free, 0) == 0;
    var s := EMPTY.(ssi := ssi, callId := f.nextCallId, nr := 1, umt := f.nextUmt);
    assert Find(f.slots[0 := s], ByTs(2), 0) == MAX_CALLS;
    forall j | 0 <= j < MAX_CALLS
      ensures if j == 0 then Setup(f, ssi, cp, true, w).0.slots[j].ssi == ssi && Setup(f, ssi, cp, true, w).0.slots[j].gssi == cp
              else Setup(f, ssi, cp, true, w).0.slots[j] == EMPTY
    {
      SetupSlots(f, ssi, cp, true, w, j);
    }
  }

  lemma SecondSetup(f: Fsm, ssi: nat, cp: nat, w: World)
    requires Inv(f) && ssi != 0 && cp != 0 && Supplies(w) && f.slots[0].ssi != 0 && f.slots[0].ssi != ssi && f.slots[0].gssi != cp
    requires forall j :: 1 <= j < MAX_CALLS ==> f.slots[j] == EMPTY
    ensures SetupSlot(f, ssi, cp, true).1 == 1
    ensures var g := Setup(f, ssi, cp, true, w).0;
            g.slots[0] == f.slots[0] && g.slots[1].ssi == ssi && g.slots[1].gssi == cp
  {
    assert Find(f.slots, Free, 0) == 1;
    var s := EMPTY.(ssi := ssi, callId := f.nextCallId, nr := 1, umt := f.nextUmt);
    var slots := f.slots[1 := s];
    SomeTsIsFree(slots);
    SetupSlots(f, ssi, cp, true, w, 0);
    SetupSlots(f, ssi, cp, true, w, 1);
  }

  lemma SomeTsIsFree(slots: seq<Slot>)
    requires |slots| == MAX_CALLS && slots[1].ts == 0 && forall j :: 2 <= j < MAX_CALLS ==> slots[j] == EMPTY
    ensures FreeTs(slots) != 0
  {
    if slots[0].ts == 2 {
      assert Find(slots, ByTs(3), 0) == MAX_CALLS;
    } else {
      assert Find(slots, ByTs(2), 0) == MAX_CALLS;
    }
  }
}
