/** What holds of the call-control state in every run. */
module CallInvariant {
  import opened CallModel
  import BitSeq

  /** One live slot by itself. */
  predicate SlotOk(s: Slot) {
    && (s.state == Connecting || s.state == Connected || s.state == Talker)
    && 2 <= s.ts <= 4 && 4 <= s.umt <= 63 && 1 <= s.callId <= 0x3FFF
    && (s.gssi == 0 || s.issi == 0)
    && (s.state == Connecting ==> s.gssi == 0)
    && (s.stage == 0 || ((s.stage == 1 || s.stage == 2) && s.gssi != 0) || (s.stage == 11 && s.gssi == 0))
  }

  predicate SlotsOk(slots: seq<Slot>) {
    forall i :: 0 <= i < |slots| ==> slots[i] == EMPTY || (slots[i].ssi != 0 && SlotOk(slots[i]))
  }

  predicate Clash(s: Slot, u: Slot) {
    s.ssi != 0 && u.ssi != 0 && (s.ssi == u.ssi || s.ts == u.ts)
  }

  /** Live slots belong to different mobiles and own different timeslots. */
  predicate NoClash(slots: seq<Slot>) {
    forall i, j :: 0 <= i < j < |slots| ==> !Clash(slots[i], slots[j])
  }

  predicate Announces(aach: seq<nat>, s: Slot)
    requires |aach| == 5
  {
    s.ssi != 0 ==> s.ts < 5 && aach[s.ts] == AachVoice(s.umt)
  }

  predicate Unowned(slots: seq<Slot>, ts: nat) {
    forall i :: 0 <= i < |slots| ==> !Matches(slots[i], ByTs(ts))
  }

  /** An AACH register shows its owner's usage marker, or idle without an owner. */
  predicate AachMirror(slots: seq<Slot>, aach: seq<nat>)
    requires |aach| == 5
  {
    && (forall i :: 0 <= i < |slots| ==> Announces(aach, slots[i]))
    && (forall ts: nat :: ts < 5 && Unowned(slots, ts) ==> aach[ts] == AACH_IDLE)
  }

  predicate CountersOk(f: Fsm) {
    1 <= f.nextCallId <= 0x3FFF && 4 <= f.nextUmt <= 63
  }

  /** Once written, the register's low bits are the cached ones. */
  predicate MaskOk(cached: set<nat>, mask: set<nat>) {
    cached == ALL_BITS || (cached <= {1, 2, 3} && mask * LOW_BITS == cached)
  }

  /** A PDU that names a usage marker was sent while its timeslot's AACH announced that marker. */
  predicate EventOk(e: Event) {
    e.Submitted? && e.pdu.umt != 0 ==> e.aach == AachVoice(e.pdu.umt)
  }

  predicate LogOk(log: seq<Event>) {
    forall k :: 0 <= k < |log| ==> EventOk(log[k])
  }

  predicate Inv(f: Fsm) {
    && Shape(f) && SlotsOk(f.slots) && NoClash(f.slots) && AachMirror(f.slots, f.aach)
    && CountersOk(f) && MaskOk(f.cached, f.mask) && LogOk(f.log)
  }

  lemma StartHolds()
    ensures Inv(Start())
  {
    var f := Start();
    assert 5 in ALL_BITS && 5 !in {1, 2, 3};
  }

  /** At most three calls: their timeslots are different ones of 2, 3 and 4. */
  lemma AtMostThreeCalls(f: Fsm, live: set<int>)
    requires Inv(f) && live == set i | 0 <= i < MAX_CALLS && f.slots[i].ssi != 0
    ensures |live| <= 3
  {
    var ts: seq<int> := seq(MAX_CALLS, i requires 0 <= i < MAX_CALLS => f.slots[i].ts);
    var voice: set<int> := {2, 3, 4};
    forall i | i in live
      ensures 0 <= i < |ts| && ts[i] in voice
    {
      assert SlotOk(f.slots[i]);
    }
    forall i, j | i in live && j in live && ts[i] == ts[j]
      ensures i == j
    {
      assert i < j ==> !Clash(f.slots[i], f.slots[j]);
      assert j < i ==> !Clash(f.slots[j], f.slots[i]);
    }
    BitSeq.InjectionBound(live, voice, ts);
  }

  // ---- Elementary updates ----

  /** Replacing a live slot by one with the same timeslot and marker. */
  lemma PutKeeps(f: Fsm, i: nat, s: Slot)
    requires Inv(f) && i < MAX_CALLS && f.slots[i].ssi != 0
    requires s.ssi != 0 && SlotOk(s) && s.ts == f.slots[i].ts && s.umt == f.slots[i].umt
    requires s.ssi == f.slots[i].ssi || Find(f.slots, BySsi(s.ssi), 0) == MAX_CALLS
    ensures Inv(Put(f, i, s))
  {
    var old_slots, slots := f.slots, Put(f, i, s).slots;
    forall j, k | 0 <= j < k < MAX_CALLS
      ensures !Clash(slots[j], slots[k])
    {
      assert !Clash(old_slots[j], old_slots[k]);
      assert s.ssi != old_slots[i].ssi ==> !Matches(old_slots[j], BySsi(s.ssi)) && !Matches(old_slots[k], BySsi(s.ssi));
    }
    PutMirror(f, i, s);
  }

  lemma PutMirror(f: Fsm, i: nat, s: Slot)
    requires Inv(f) && i < MAX_CALLS && f.slots[i].ssi != 0
    requires s.ssi != 0 && s.ts == f.slots[i].ts && s.umt == f.slots[i].umt
    ensures AachMirror(Put(f, i, s).slots, f.aach)
  {
    var slots := Put(f, i, s).slots;
    forall j | 0 <= j < MAX_CALLS
      ensures Announces(f.aach, slots[j])
    {
      assert Announces(f.aach, f.slots[j]);
    }
    forall ts: nat | ts < 5 && Unowned(slots, ts)
      ensures f.aach[ts] == AACH_IDLE
    {
      forall j | 0 <= j < MAX_CALLS
        ensures !Matches(f.slots[j], ByTs(ts))
      {
        assert !Matches(slots[j], ByTs(ts));
      }
      assert Unowned(f.slots, ts);
    }
  }

  lemma EmitKeeps(f: Fsm, e: Event)
    requires Inv(f) && EventOk(e)
    ensures Inv(Emit(f, e))
  {
  }

  lemma SubmitKeeps(f: Fsm, kind: Kind, i: nat, cause: nat)
    requires Inv(f) && i < MAX_CALLS && f.slots[i].ssi != 0
    ensures Inv(Submit(f, kind, i, cause)) && Submit(f, kind, i, cause).slots == f.slots
  {
    var s := f.slots[i];
    assert SlotOk(s) && Announces(f.aach, s);
    assert CallPdu(kind, s, cause).umt == 0 || CallPdu(kind, s, cause).umt == s.umt;
    EmitKeeps(f, Submitted(CallPdu(kind, s, cause), f.aach[s.ts]));
  }

  lemma {:induction false} VoiceMaskRange(slots: seq<Slot>, now: nat, n: nat)
    requires n <= |slots| && SlotsOk(slots)
    ensures VoiceMask(slots, now, n) <= {1, 2, 3}
  {
    if n > 0 {
      VoiceMaskRange(slots, now, n - 1);
      assert slots[n - 1] == EMPTY || SlotOk(slots[n - 1]);
    }
  }

  /** The mask has exactly the positions of the speaking calls. */
  lemma {:induction false} VoiceMaskMeaning(slots: seq<Slot>, now: nat, n: nat, ts: nat)
    requires n <= |slots| && 1 <= ts <= 4
    ensures ts - 1 in VoiceMask(slots, now, n) <==> exists i :: 0 <= i < n && Speaking(slots[i], now) && slots[i].ts == ts
  {
    if n > 0 {
      VoiceMaskMeaning(slots, now, n - 1, ts);
      var s := slots[n - 1];
      assert ts - 1 in MaskBit(s.ts) <==> s.ts == ts;
    }
  }

  lemma WriteMaskKeeps(f: Fsm, now: nat)
    requires Inv(f)
    ensures Inv(WriteMask(f, VoiceMask(f.slots, now, MAX_CALLS)))
    ensures WriteMask(f, VoiceMask(f.slots, now, MAX_CALLS)).cached == VoiceMask(f.slots, now, MAX_CALLS)
  {
    VoiceMaskRange(f.slots, now, MAX_CALLS);
    MaskWriteOk(f.cached, f.mask, VoiceMask(f.slots, now, MAX_CALLS));
  }

  lemma MaskWriteOk(cached: set<nat>, mask: set<nat>, v: set<nat>)
    requires MaskOk(cached, mask) && v <= {1, 2, 3}
    ensures MaskOk(v, if v == cached then mask else v)
  {
    assert v * LOW_BITS == v;
    assert 5 in ALL_BITS && 5 !in v;
  }

  // ---- Allocation and release of a slot ----

  lemma FreedMirror(f: Fsm, i: nat)
    requires Inv(f) && i < MAX_CALLS && f.slots[i].ssi != 0
    ensures AachMirror(Freed(f, i).slots, Freed(f, i).aach)
  {
    var g, t := Freed(f, i), f.slots[i].ts;
    assert SlotOk(f.slots[i]);
    forall j | 0 <= j < MAX_CALLS
      ensures Announces(g.aach, g.slots[j])
    {
      assert Announces(f.aach, f.slots[j]);
      assert j < i ==> !Clash(f.slots[j], f.slots[i]);
      assert i < j ==> !Clash(f.slots[i], f.slots[j]);
    }
    forall ts: nat | ts < 5 && Unowned(g.slots, ts)
      ensures g.aach[ts] == AACH_IDLE
    {
      if ts != t {
        forall j | 0 <= j < MAX_CALLS
          ensures !Matches(f.slots[j], ByTs(ts))
        {
          assert !Matches(g.slots[j], ByTs(ts));
        }
        assert Unowned(f.slots, ts);
      }
    }
  }

  lemma FreedKeeps(f: Fsm, i: nat)
    requires Inv(f) && i < MAX_CALLS && f.slots[i].ssi != 0
    ensures Inv(Freed(f, i))
  {
    FreedMirror(f, i);
    var g := Freed(f, i);
    forall j, k | 0 <= j < k < MAX_CALLS
      ensures !Clash(g.slots[j], g.slots[k])
    {
      assert !Clash(f.slots[j], f.slots[k]);
    }
  }

  /** A new slot that clashes with nobody. */
  lemma InstallKeeps(f: Fsm, i: nat, s: Slot)
    requires Inv(f) && i < MAX_CALLS && f.slots[i].ssi == 0
    requires s.ssi != 0 && SlotOk(s)
    requires Find(f.slots, BySsi(s.ssi), 0) == MAX_CALLS && Unowned(f.slots, s.ts)
    ensures Inv(WriteAach(Put(f, i, s), s.ts, AachVoice(s.umt)))
  {
    var g := WriteAach(Put(f, i, s), s.ts, AachVoice(s.umt));
    forall j, k | 0 <= j < k < MAX_CALLS
      ensures !Clash(g.slots[j], g.slots[k])
    {
      assert !Clash(f.slots[j], f.slots[k]);
      assert !Matches(f.slots[j], BySsi(s.ssi)) && !Matches(f.slots[k], BySsi(s.ssi));
      assert !Matches(f.slots[j], ByTs(s.ts)) && !Matches(f.slots[k], ByTs(s.ts));
    }
    InstallMirror(f, i, s);
  }

  lemma InstallMirror(f: Fsm, i: nat, s: Slot)
    requires Inv(f) && i < MAX_CALLS && f.slots[i].ssi == 0 && s.ssi != 0 && 2 <= s.ts <= 4 && Unowned(f.slots, s.ts)
    ensures AachMirror(f.slots[i := s], f.aach[s.ts := AachVoice(s.umt)])
  {
    var slots, aach := f.slots[i := s], f.aach[s.ts := AachVoice(s.umt)];
    forall j | 0 <= j < MAX_CALLS
      ensures Announces(aach, slots[j])
    {
      assert Announces(f.aach, f.slots[j]) && !Matches(f.slots[j], ByTs(s.ts));
    }
    forall ts: nat | ts < 5 && Unowned(slots, ts)
      ensures aach[ts] == AACH_IDLE
    {
      assert !Matches(slots[i], ByTs(ts));
      forall j | 0 <= j < MAX_CALLS
        ensures !Matches(f.slots[j], ByTs(ts))
      {
        assert j != i ==> !Matches(slots[j], ByTs(ts));
      }
      assert Unowned(f.slots, ts);
    }
  }

  // ---- Uplink PDUs ----

  lemma ConnectEmit(f: Fsm, i: nat, s: Slot, final: Slot)
    requires Shape(f) && i < MAX_CALLS && s.ts <= 4 && Inv(Put(f, i, final)) && final.ssi != 0
    requires final == s.(stage := final.stage, next := final.next, lastActivity := final.lastActivity, state := final.state)
    ensures Inv(Put(Submit(Put(f, i, s), DConnect, i, 0), i, final))
  {
    SubmitKeeps(Put(f, i, final), DConnect, i, 0);
    assert Put(Submit(Put(f, i, s), DConnect, i, 0), i, final) == Submit(Put(f, i, final), DConnect, i, 0);
  }

  /** What a group set-up makes of slot i. */
  function Grouped(s: Slot, w: World): Slot
    requires Supplies(w)
  {
    s.(stage := 1, next := Later(w.clock[1]), lastActivity := w.clock[2], state := Connected)
  }

  lemma GroupSetupKeeps(f: Fsm, i: nat, s: Slot, w: World)
    requires Shape(f) && i < MAX_CALLS && Supplies(w) && s.ssi != 0 && s.ts <= 4 && Inv(Put(f, i, Grouped(s, w)))
    ensures Inv(GroupSetup(Put(f, i, s), i, w))
  {
    ConnectEmit(f, i, s, Grouped(s, w));
    var h := Put(Submit(Put(f, i, s), DConnect, i, 0), i, Grouped(s, w));
    WriteMaskKeeps(h, w.clock[3]);
  }

  lemma IndividualSetupKeeps(f: Fsm, i: nat, w: World)
    requires Inv(f) && i < MAX_CALLS && Supplies(w) && f.slots[i].ssi != 0 && f.slots[i].gssi == 0
    ensures Inv(IndividualSetup(f, i, w))
  {
    var g0 := Emit(f, SlotGrant(f.slots[i].ssi));
    SubmitKeeps(g0, DCallProceeding, i, 0);
    var g1 := Submit(g0, DCallProceeding, i, 0);
    SubmitKeeps(g1, DAlert, i, 0);
    var g2 := Submit(g1, DAlert, i, 0);
    SubmitKeeps(g2, DSetup, i, 0);
    var g := Submit(g2, DSetup, i, 0);
    PutKeeps(g, i, g.slots[i].(state := Connecting, stage := 11, next := Later(w.clock[1]),
                               lastActivity := w.clock[2]));
  }

  /** The set-up slot may become any well-formed slot of the caller with the same timeslot and marker. */
  lemma SetupSlotKeeps(f: Fsm, ssi: nat, cp: nat, group: bool, s: Slot)
    requires Inv(f) && ssi != 0
    requires var (g, i) := SetupSlot(f, ssi, cp, group);
             i < MAX_CALLS ==> SlotOk(s) && s.ssi == ssi && s.ts == g.slots[i].ts && s.umt == g.slots[i].umt
    ensures var (g, i) := SetupSlot(f, ssi, cp, group);
            if i < MAX_CALLS then Inv(Put(g, i, s)) else Inv(g)
  {
    var (g, i) := SetupSlot(f, ssi, cp, group);
    var own := Find(f.slots, BySsi(ssi), 0);
    var running := if group then Find(f.slots, ByGssi(cp), 0) else MAX_CALLS;
    if own < MAX_CALLS {
      assert SlotOk(f.slots[own]);
      PutKeeps(f, own, s);
    } else if running < MAX_CALLS {
      assert SlotOk(f.slots[running]);
      PutKeeps(f, running, s);
      assert Put(g, i, s) == Put(f, running, s);
    } else {
      AllocatedKeeps(f, ssi, s);
    }
  }

  lemma AllocatedKeeps(f: Fsm, ssi: nat, s: Slot)
    requires Inv(f) && ssi != 0 && Find(f.slots, BySsi(ssi), 0) == MAX_CALLS
    requires var (g, i) := Allocated(f, ssi);
             i < MAX_CALLS ==> SlotOk(s) && s.ssi == ssi && s.ts == g.slots[i].ts && s.umt == g.slots[i].umt
    ensures var (g, i) := Allocated(f, ssi);
            if i < MAX_CALLS then Inv(Put(g, i, s)) else Inv(g)
  {
    var (g, i) := Allocated(f, ssi);
    var j := Find(f.slots, Free, 0);
    if j < MAX_CALLS {
      if i == MAX_CALLS {
        assert f.slots[j] == EMPTY;
        assert g == Advanced(f);
      } else {
        InstalledKeeps(f, ssi, s, j);
      }
    }
  }

  lemma InstalledKeeps(f: Fsm, ssi: nat, s: Slot, i: nat)
    requires Inv(f) && ssi != 0 && Find(f.slots, BySsi(ssi), 0) == MAX_CALLS && i == Find(f.slots, Free, 0) < MAX_CALLS
    requires Allocated(f, ssi).1 == i
    requires var u := Allocated(f, ssi).0.slots[i]; SlotOk(s) && s.ssi == ssi && s.ts == u.ts && s.umt == u.umt
    ensures Inv(Put(Allocated(f, ssi).0, i, s))
  {
    TakenTsUnowned(f, i, ssi, s.ts);
    InstallKeeps(Advanced(f), i, s);
    assert Put(Allocated(f, ssi).0, i, s) == WriteAach(Put(Advanced(f), i, s), s.ts, AachVoice(s.umt));
  }

  /** Both counters moved on. */
  function Advanced(f: Fsm): (g: Fsm)
    ensures Inv(f) ==> Inv(g)
  {
    f.(nextCallId := NextCallId(f.nextCallId), nextUmt := NextUmt(f.nextUmt))
  }

  lemma AllocatedShape(f: Fsm, ssi: nat)
    requires Inv(f)
    ensures var (g, i) := Allocated(f, ssi);
            i < MAX_CALLS ==> 2 <= g.slots[i].ts <= 4 && g.slots[i].ssi == ssi
                              && 4 <= g.slots[i].umt <= 63 && 1 <= g.slots[i].callId <= 0x3FFF
  {
  }

  /** The timeslot found free next to the new slot was free before. */
  lemma TakenTsUnowned(f: Fsm, i: nat, ssi: nat, ts: nat)
    requires Inv(f) && i < MAX_CALLS && f.slots[i].ssi == 0 && ts != 0
    requires exists s: Slot :: s.ssi == ssi && s.ts == 0 && ts == FreeTs(f.slots[i := s])
    ensures Unowned(f.slots, ts)
  {
    var s: Slot :| s.ssi == ssi && s.ts == 0 && ts == FreeTs(f.slots[i := s]);
    var slots := f.slots[i := s];
    assert Find(slots, ByTs(ts), 0) == |slots|;
    forall j | 0 <= j < MAX_CALLS
      ensures !Matches(f.slots[j], ByTs(ts))
    {
      assert !Matches(slots[j], ByTs(ts));
    }
  }

  lemma SetupKeeps(f: Fsm, ssi: nat, cp: nat, group: bool, w: World)
    requires Inv(f) && ssi != 0 && Supplies(w) && (group ==> cp != 0)
    ensures Inv(Setup(f, ssi, cp, group, w).0)
  {
    var (g, i) := SetupSlot(f, ssi, cp, group);
    if i < MAX_CALLS {
      var s := g.slots[i].(gssi := if group then cp else 0, issi := if group then 0 else cp, state := Connecting,
                           setupAt := w.clock[0], ceasedAt := 0);
      SetupSlotShape(f, ssi, cp, group);
      if group {
        SetupSlotKeeps(f, ssi, cp, group, Grouped(s, w));
        GroupSetupKeeps(g, i, s, w);
      } else {
        var u := s.(stage := 0);
        SetupSlotKeeps(f, ssi, cp, group, u);
        IndividualFromAnyStage(g, i, s, w);
      }
    } else {
      SetupSlotKeeps(f, ssi, cp, group, EMPTY);
    }
  }

  lemma SetupSlotShape(f: Fsm, ssi: nat, cp: nat, group: bool)
    requires Inv(f) && ssi != 0
    ensures var (g, i) := SetupSlot(f, ssi, cp, group);
            i < MAX_CALLS ==> 2 <= g.slots[i].ts <= 4 && g.slots[i].ssi == ssi
                              && 4 <= g.slots[i].umt <= 63 && 1 <= g.slots[i].callId <= 0x3FFF
  {
    var own := Find(f.slots, BySsi(ssi), 0);
    var running := if group then Find(f.slots, ByGssi(cp), 0) else MAX_CALLS;
    if own < MAX_CALLS {
      assert SlotOk(f.slots[own]);
    } else if running < MAX_CALLS {
      assert SlotOk(f.slots[running]);
    } else {
      AllocatedShape(f, ssi);
    }
  }

  /** The sequencer stage that the slot had before does not matter. */
  lemma IndividualFromAnyStage(g: Fsm, i: nat, s: Slot, w: World)
    requires Shape(g) && i < MAX_CALLS && Supplies(w) && s.ssi != 0 && s.gssi == 0 && Inv(Put(g, i, s.(stage := 0)))
    ensures Inv(IndividualSetup(Put(g, i, s), i, w))
  {
    IndividualSetupKeeps(Put(g, i, s.(stage := 0)), i, w);
    assert IndividualSetup(Put(g, i, s), i, w) == IndividualSetup(Put(g, i, s.(stage := 0)), i, w);
  }

  lemma TxDemandKeeps(f: Fsm, ssi: nat, callId: nat, w: World)
    requires Inv(f) && ssi != 0 && Supplies(w)
    ensures Inv(TxDemand(f, ssi, callId, w).0)
  {
    var own, other := Find(f.slots, BySsi(ssi), 0), Find(f.slots, ByCallId(callId), 0);
    var i := if own < MAX_CALLS then own else other;
    if i < MAX_CALLS {
      var s := if own < MAX_CALLS then f.slots[i] else f.slots[i].(ssi := ssi, ns := 0, nr := 0);
      assert SlotOk(f.slots[i]);
      PutKeeps(f, i, s.(ns := Flip(s.ns)));
      GrantedKeeps(Put(f, i, s.(ns := Flip(s.ns))), i, w);
    }
  }

  lemma GrantedKeeps(f: Fsm, i: nat, w: World)
    requires Inv(f) && i < MAX_CALLS && f.slots[i].ssi != 0 && Supplies(w)
    ensures Inv(Granted(f, i, w))
  {
    SubmitKeeps(f, DTxGranted, i, 0);
    var g := Submit(f, DTxGranted, i, 0);
    var h := Put(g, i, g.slots[i].(state := Talker, lastActivity := w.clock[0]));
    PutKeeps(g, i, h.slots[i]);
    WriteMaskKeeps(h, w.clock[1]);
  }

  lemma TxCeasedKeeps(f: Fsm, ssi: nat, w: World)
    requires Inv(f) && ssi != 0 && Supplies(w)
    ensures Inv(TxCeased(f, ssi, w).0)
  {
    var i := Find(f.slots, BySsi(ssi), 0);
    if i < MAX_CALLS {
      var s, t := f.slots[i], w.clock[0];
      var g := Put(f, i, s.(state := Connected, ceasedAt := Orelse(s.ceasedAt, t), lastActivity := t));
      PutKeeps(f, i, g.slots[i]);
      SubmitKeeps(g, DTxCeased, i, 0);
      var g1 := Submit(g, DTxCeased, i, 0);
      SubmitKeeps(g1, DTxCeased, i, 0);
      SubmitKeeps(Submit(g1, DTxCeased, i, 0), DTxCeased, i, 0);
    }
  }

  lemma AnswerKeeps(f: Fsm, ssi: nat, callId: nat, w: World)
    requires Inv(f) && ssi != 0 && Supplies(w)
    ensures Inv(Answer(f, ssi, callId, w).0)
  {
    var own, other := Find(f.slots, BySsi(ssi), 0), Find(f.slots, ByCallId(callId), 0);
    var i := if own < MAX_CALLS then own else other;
    if i < MAX_CALLS {
      AnsweredKeeps(f, i, w);
    }
  }

  lemma AnsweredKeeps(f: Fsm, i: nat, w: World)
    requires Inv(f) && i < MAX_CALLS && f.slots[i].ssi != 0 && Supplies(w)
    ensures Inv(Answered(f, i, w))
  {
    assert SlotOk(f.slots[i]);
    SubmitKeeps(f, DConnect, i, 0);
    SubmitKeeps(Submit(f, DConnect, i, 0), DConnectAck, i, 0);
    var g := Submit(Submit(f, DConnect, i, 0), DConnectAck, i, 0);
    var h := Put(g, i, g.slots[i].(state := Connected, stage := 0, lastActivity := w.clock[0]));
    PutKeeps(g, i, h.slots[i]);
    WriteMaskKeeps(h, w.clock[1]);
  }

  lemma ReleaseKeeps(f: Fsm, ssi: nat, cause: nat, w: World)
    requires Inv(f) && ssi != 0 && Supplies(w)
    ensures Inv(Release(f, ssi, cause, w).0)
  {
    var i := Find(f.slots, BySsi(ssi), 0);
    if i < MAX_CALLS {
      var s := f.slots[i];
      assert SlotOk(s);
      PutKeeps(f, i, s.(ns := Flip(s.ns)));
      EndedKeeps(Put(f, i, s.(ns := Flip(s.ns))), i, cause, w);
    }
  }

  lemma EndedKeeps(f: Fsm, i: nat, cause: nat, w: World)
    requires Inv(f) && i < MAX_CALLS && f.slots[i].ssi != 0 && Supplies(w)
    ensures Inv(Ended(f, i, cause, w))
  {
    SubmitKeeps(f, DRelease, i, cause);
    FreedKeeps(Submit(f, DRelease, i, cause), i);
    WriteMaskKeeps(Freed(Submit(f, DRelease, i, cause), i), w.clock[0]);
  }

  /** Every uplink PDU keeps the invariant. */
  lemma HandledKeeps(f: Fsm, ssi: nat, p: Uplink, w: World)
    requires Inv(f) && Supplies(w)
    ensures Inv(Handled(f, ssi, p, w).0)
  {
    if ssi != 0 {
      match p
      case USetup(calledType, calledSsi, ct) =>
        var cp := CalledSsi(calledType, calledSsi);
        SetupKeeps(f, ssi, cp, IsGroupCall(cp, ct, w.groups), w);
      case UTxDemand(callId) => TxDemandKeeps(f, ssi, callId, w);
      case UTxCeased => TxCeasedKeeps(f, ssi, w);
      case UConnect(callId) => AnswerKeeps(f, ssi, callId, w);
      case URelease(cause) => ReleaseKeeps(f, ssi, cause, w);
      case UDisconnect(cause) => ReleaseKeeps(f, ssi, cause, w);
      case UAlert(_) =>
      case Other =>
    }
  }

  // ---- Tick, bursts, late entry ----

  lemma RefreshedKeeps(f: Fsm, b: Burst)
    requires Inv(f)
    ensures Inv(Refreshed(f, b))
  {
    if b.Heard? && 1 <= b.ts <= 4 && Find(f.slots, ByTs(b.ts), 0) < MAX_CALLS {
      var i := Find(f.slots, ByTs(b.ts), 0);
      PutKeeps(f, i, f.slots[i].(lastActivity := b.ms));
    }
  }

  lemma SequencedKeeps(f: Fsm, i: nat, now: nat)
    requires Inv(f) && i < MAX_CALLS && f.slots[i].ssi != 0
    ensures Inv(Sequenced(f, i, now)) && Sequenced(f, i, now).slots[i].ssi != 0
  {
    var s := f.slots[i];
    SubmitKeeps(f, DConnect, i, 0);
    SubmitKeeps(f, DSetup, i, 0);
    if s.stage == 1 {
      PutKeeps(Submit(f, DConnect, i, 0), i, s.(stage := 2, next := Later(now)));
    } else if s.stage != 0 {
      PutKeeps(Submit(f, DSetup, i, 0), i, s.(stage := 0));
    }
  }

  lemma TurnKeeps(f: Fsm, i: nat, now: nat, b: Burst)
    requires Inv(f) && i < MAX_CALLS
    ensures Inv(Turn(f, i, now, b))
  {
    if f.slots[i].ssi != 0 {
      SequencedKeeps(f, i, now);
      var g := Sequenced(f, i, now);
      var s := g.slots[i];
      SubmitKeeps(g, DRelease, i, 0);
      if Expired(s, now) {
        if s.state == Connecting {
          FreedKeeps(Submit(g, DRelease, i, 0), i);
        } else {
          FreedKeeps(ClearBank(g, s.ts), i);
        }
      } else {
        RefreshedKeeps(g, b);
        RefreshedKeeps(ClearBank(g, s.ts), b);
      }
    }
  }

  lemma {:induction false} TurnsKeep(f: Fsm, now: nat, bursts: seq<Burst>, n: nat)
    requires Inv(f) && n <= MAX_CALLS == |bursts|
    ensures Inv(Turns(f, now, bursts, n))
  {
    if n > 0 {
      TurnsKeep(f, now, bursts, n - 1);
      TurnKeeps(Turns(f, now, bursts, n - 1), n - 1, now, bursts[n - 1]);
    }
  }

  /** A tick keeps the invariant and leaves the mask of the calls speaking at its end. */
  lemma TickedKeeps(f: Fsm, now: nat, bursts: seq<Burst>, later: nat)
    requires Inv(f) && |bursts| == MAX_CALLS
    ensures var g := Ticked(f, now, bursts, later);
            && Inv(g) && g.mask * LOW_BITS == VoiceMask(g.slots, later, MAX_CALLS)
            && forall k :: k in LOW_BITS ==>
                 (k in g.mask <==> exists i :: 0 <= i < MAX_CALLS && Speaking(g.slots[i], later) && g.slots[i].ts == k + 1)
  {
    var h := Turns(f, now, bursts, MAX_CALLS);
    TurnsKeep(f, now, bursts, MAX_CALLS);
    WriteMaskKeeps(h, later);
    VoiceMaskRange(h.slots, later, MAX_CALLS);
    var g := Ticked(f, now, bursts, later);
    assert 5 in ALL_BITS && 5 !in g.cached;
    forall k | k in LOW_BITS
      ensures k in g.mask <==> exists i :: 0 <= i < MAX_CALLS && Speaking(g.slots[i], later) && g.slots[i].ts == k + 1
    {
      VoiceMaskMeaning(h.slots, later, MAX_CALLS, k + 1);
      assert k in g.mask <==> k in g.mask * LOW_BITS;
    }
  }

  lemma {:induction false} AnnouncedKeeps(f: Fsm, gssi: nat, n: nat)
    requires Inv(f) && n <= MAX_CALLS
    ensures Inv(Announced(f, gssi, n))
  {
    if n > 0 {
      AnnouncedKeeps(f, gssi, n - 1);
      var g := Announced(f, gssi, n - 1);
      if JoinsLate(g.slots[n - 1], gssi) {
        SubmitKeeps(g, DSetup, n - 1, 0);
      }
    }
  }
}
