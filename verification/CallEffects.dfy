/**
 * What every uplink PDU sends and to whom, and what it makes of the slots, written out for a caller
 * who does not want to read the state machine.
 */
module CallEffects {
  import opened CallModel
  import opened CallInvariant
  import opened CallRuns

  // ---- PDUs ----

  /** The bitmap with the bit of one timeslot, timeslot 1 on top of four. */
  function Bitmap(ts: nat): nat {
    if 1 <= ts <= 4 then [8, 4, 2, 1][ts - 1] else 0
  }

  /** A PDU that assigns the call's channel: identifier, usage marker and timeslot. */
  function WithChannel(kind: Kind, target: nat, s: Slot): Pdu {
    Pdu(kind, target, s.callId % 16384, s.umt, Bitmap(s.ts), s.ns, s.nr, 0, 0, false)
  }

  function WithoutChannel(kind: Kind, target: nat, s: Slot): Pdu {
    Pdu(kind, target, s.callId % 16384, 0, 0, s.ns, s.nr, 0, 0, false)
  }

  /** D-SETUP: the group with the channel, the called party without one, or the caller himself. */
  function SetupPdu(s: Slot): Pdu {
    if s.gssi != 0 then WithChannel(DSetup, s.gssi, s).(callingParty := s.ssi, pointToMultipoint := true)
    else if s.issi != 0 then WithoutChannel(DSetup, s.issi, s).(callingParty := s.ssi)
    else WithChannel(DSetup, s.ssi, s).(callingParty := s.ssi)
  }

  /** The PDU on the air together with the AACH value that announces the call's marker. */
  function Aired(p: Pdu, s: Slot): Event {
    Submitted(p, 0x3000 + 64 * s.umt + s.umt)
  }

  lemma SubmitSends(f: Fsm, kind: Kind, i: nat, cause: nat, s: Slot)
    requires Shape(f) && i < MAX_CALLS && s == f.slots[i] && s.ssi != 0 && SlotOk(s) && Announces(f.aach, s)
    ensures Submit(f, kind, i, cause) == Emit(f, Aired(CallPdu(kind, s, cause), s))
  {
  }

  lemma LiveSlot(f: Fsm, i: nat)
    requires Inv(f) && i < MAX_CALLS && f.slots[i].ssi != 0
    ensures SlotOk(f.slots[i]) && Announces(f.aach, f.slots[i])
  {
  }

  lemma PduOfKind(s: Slot, cause: nat)
    ensures CallPdu(DConnect, s, cause) == WithChannel(DConnect, s.ssi, s)
    ensures CallPdu(DConnectAck, s, cause) == WithChannel(DConnectAck, if s.issi != 0 then s.issi else s.ssi, s)
    ensures CallPdu(DTxGranted, s, cause) == WithChannel(DTxGranted, s.ssi, s)
    ensures CallPdu(DTxCeased, s, cause) == WithChannel(DTxCeased, if s.gssi != 0 then s.gssi else s.ssi, s).(ns := 0, nr := 0)
    ensures CallPdu(DRelease, s, cause) == WithChannel(DRelease, s.ssi, s).(cause := cause)
    ensures CallPdu(DCallProceeding, s, cause) == WithoutChannel(DCallProceeding, s.ssi, s)
    ensures CallPdu(DAlert, s, cause) == WithoutChannel(DAlert, s.ssi, s)
    ensures CallPdu(DSetup, s, cause) == SetupPdu(s)
  {
  }

  /** An AACH value names the marker twice under header 11, and never the idle one. */
  lemma MarkerFields(umt: nat)
    requires 4 <= umt <= 63
    ensures var v := AachVoice(umt);
            v == 0x3000 + 64 * umt + umt && v / 4096 == 3 && v / 64 % 64 == umt && v % 64 == umt && v != AACH_IDLE
  {
  }

  // ---- Which slot ----

  /** The slot of the sender, or without one the slot with the call identifier. */
  predicate Serves(f: Fsm, i: nat, ssi: nat, callId: nat)
    requires Shape(f)
  {
    && i < MAX_CALLS && ssi != 0 && f.slots[i].ssi != 0
    && if exists j :: 0 <= j < MAX_CALLS && f.slots[j].ssi == ssi then f.slots[i].ssi == ssi
       else callId != 0 && f.slots[i].callId == callId
            && forall j :: 0 <= j < i ==> f.slots[j].ssi == 0 || f.slots[j].callId != callId
  }

  lemma ServingSlot(f: Fsm, i: nat, ssi: nat, callId: nat)
    requires Inv(f) && Serves(f, i, ssi, callId)
    ensures var own, other := Find(f.slots, BySsi(ssi), 0), Find(f.slots, ByCallId(callId), 0);
            i == (if own < MAX_CALLS then own else other) && (own < MAX_CALLS <==> f.slots[i].ssi == ssi)
  {
    var own := Find(f.slots, BySsi(ssi), 0);
    if j :| 0 <= j < MAX_CALLS && f.slots[j].ssi == ssi {
      assert Matches(f.slots[j], BySsi(ssi)) && Matches(f.slots[i], BySsi(ssi));
      assert own != i ==> Clash(f.slots[own], f.slots[i]);
    } else {
      assert Matches(f.slots[i], ByCallId(callId));
    }
  }

  // ---- U-CONNECT ----

  /** The register write that a new mask value causes. */
  function OnMask(f: Fsm, v: set<nat>): seq<Event> {
    if v == f.cached then [] else [MaskWritten(v)]
  }

  /**
   * An answered call sends exactly D-CONNECT to the owner and D-CONNECT-ACK to the called party,
   * both with the call's channel, writes the mask and clears the filler.
   */
  lemma AnswerSends(f: Fsm, ssi: nat, callId: nat, w: World, i: nat)
    requires Inv(f) && Supplies(w) && Serves(f, i, ssi, callId)
    ensures var s := f.slots[i];
            var u := s.(state := Connected, stage := 0, lastActivity := w.clock[0]);
            var (g, rc) := Handled(f, ssi, UConnect(callId), w);
            && g.slots == f.slots[i := u]
            && g.log == f.log + [Aired(WithChannel(DConnect, s.ssi, s), s),
                                 Aired(WithChannel(DConnectAck, if s.issi != 0 then s.issi else s.ssi, s), s)]
                        + OnMask(f, VoiceMask(g.slots, w.clock[1], 8)) + [ClearFiller]
            && rc == if w.results[0] < 0 then w.results[0] else w.results[1]
  {
    ServingSlot(f, i, ssi, callId);
    AnsweredSends(f, i, w);
  }

  lemma AnsweredSends(f: Fsm, i: nat, w: World)
    requires Inv(f) && Supplies(w) && i < MAX_CALLS && f.slots[i].ssi != 0
    ensures var s, g := f.slots[i], Answered(f, i, w);
            && g.slots == f.slots[i := s.(state := Connected, stage := 0, lastActivity := w.clock[0])]
            && g.log == f.log + [Aired(WithChannel(DConnect, s.ssi, s), s),
                                 Aired(WithChannel(DConnectAck, if s.issi != 0 then s.issi else s.ssi, s), s)]
                        + OnMask(f, VoiceMask(g.slots, w.clock[1], 8)) + [ClearFiller]
  {
    BothConnect(f, i);
    var g := Submit(Submit(f, DConnect, i, 0), DConnectAck, i, 0);
    var h := Put(g, i, g.slots[i].(state := Connected, stage := 0, lastActivity := w.clock[0]));
    MaskEvent(h, VoiceMask(h.slots, w.clock[1], 8), f);
  }

  lemma BothConnect(f: Fsm, i: nat)
    requires Inv(f) && i < MAX_CALLS && f.slots[i].ssi != 0
    ensures var s := f.slots[i];
            Submit(Submit(f, DConnect, i, 0), DConnectAck, i, 0)
            == f.(log := f.log + [Aired(WithChannel(DConnect, s.ssi, s), s),
                                  Aired(WithChannel(DConnectAck, if s.issi != 0 then s.issi else s.ssi, s), s)])
  {
    var s := f.slots[i];
    LiveSlot(f, i);
    PduOfKind(s, 0);
    SubmitSends(f, DConnect, i, 0, s);
    SubmitSends(Submit(f, DConnect, i, 0), DConnectAck, i, 0, s);
  }

  lemma MaskEvent(h: Fsm, v: set<nat>, f: Fsm)
    requires h.cached == f.cached
    ensures WriteMask(h, v).log == h.log + OnMask(f, v) && WriteMask(h, v).slots == h.slots
  {
  }

  // ---- U-TX-DEMAND ----

  /** The slot as the sender takes it over, with the next sequence number. */
  function FloorTaken(s: Slot, ssi: nat): Slot {
    var t := if s.ssi == ssi then s else s.(ssi := ssi, ns := 0, nr := 0);
    t.(ns := if t.ns == 0 then 1 else 0)
  }

  /** The floor goes to the sender: one D-TX-GRANTED to it, and its call speaks. */
  lemma DemandSends(f: Fsm, ssi: nat, callId: nat, w: World, i: nat)
    requires Inv(f) && Supplies(w) && Serves(f, i, ssi, callId)
    ensures var t := FloorTaken(f.slots[i], ssi);
            var (g, rc) := Handled(f, ssi, UTxDemand(callId), w);
            && g.slots == f.slots[i := t.(state := Talker, lastActivity := w.clock[0])]
            && g.log == f.log + [Aired(WithChannel(DTxGranted, ssi, t), t)] + OnMask(f, VoiceMask(g.slots, w.clock[1], 8))
            && rc == w.results[0]
  {
    ServingSlot(f, i, ssi, callId);
    LiveSlot(f, i);
    GrantSends(f, i, FloorTaken(f.slots[i], ssi), w);
  }

  lemma GrantSends(f: Fsm, i: nat, t: Slot, w: World)
    requires Shape(f) && Supplies(w) && i < MAX_CALLS && t.ssi != 0 && SlotOk(t) && Announces(f.aach, t)
    ensures var g := Granted(Put(f, i, t), i, w);
            && g.slots == f.slots[i := t.(state := Talker, lastActivity := w.clock[0])]
            && g.log == f.log + [Aired(WithChannel(DTxGranted, t.ssi, t), t)] + OnMask(f, VoiceMask(g.slots, w.clock[1], 8))
  {
    var e := Put(f, i, t);
    PduOfKind(t, 0);
    SubmitSends(e, DTxGranted, i, 0, t);
    var g := Submit(e, DTxGranted, i, 0);
    var h := Put(g, i, t.(state := Talker, lastActivity := w.clock[0]));
    MaskEvent(h, VoiceMask(h.slots, w.clock[1], 8), f);
  }

  // ---- U-TX-CEASED ----

  function Copies(e: Event, n: nat): (r: seq<Event>) {
    seq(n, _ => e)
  }

  /** The end of speech is confirmed to the group, or to the sender without one: three times at first, then once. */
  lemma CeasedSends(f: Fsm, ssi: nat, w: World, i: nat)
    requires Inv(f) && Supplies(w) && i < MAX_CALLS && ssi != 0 && f.slots[i].ssi == ssi
    ensures var s, t := f.slots[i], w.clock[0];
            var first := s.ceasedAt == 0 || s.ceasedAt == t;
            var p := WithChannel(DTxCeased, if s.gssi != 0 then s.gssi else ssi, s).(ns := 0, nr := 0);
            var (g, rc) := Handled(f, ssi, UTxCeased, w);
            && g.slots == f.slots[i := s.(state := Connected, ceasedAt := if s.ceasedAt == 0 then t else s.ceasedAt,
                                          lastActivity := t)]
            && g.log == f.log + Copies(Aired(p, s), if first then 3 else 1)
            && rc == w.results[if first then 2 else 0]
  {
    OwnSlot(f, ssi, i);
    LiveSlot(f, i);
    var s, t := f.slots[i], w.clock[0];
    var u := s.(state := Connected, ceasedAt := Orelse(s.ceasedAt, t), lastActivity := t);
    ThreeCopies(Put(f, i, u), i, u);
  }

  lemma ThreeCopies(f: Fsm, i: nat, u: Slot)
    requires Shape(f) && i < MAX_CALLS && f.slots[i] == u && u.ssi != 0 && SlotOk(u) && Announces(f.aach, u)
    ensures var e := Aired(WithChannel(DTxCeased, if u.gssi != 0 then u.gssi else u.ssi, u).(ns := 0, nr := 0), u);
            var g := Submit(f, DTxCeased, i, 0);
            && g == f.(log := f.log + Copies(e, 1))
            && Submit(Submit(g, DTxCeased, i, 0), DTxCeased, i, 0) == f.(log := f.log + Copies(e, 3))
  {
    PduOfKind(u, 0);
    SubmitSends(f, DTxCeased, i, 0, u);
    var g := Submit(f, DTxCeased, i, 0);
    SubmitSends(g, DTxCeased, i, 0, u);
    SubmitSends(Submit(g, DTxCeased, i, 0), DTxCeased, i, 0, u);
  }

  lemma OwnSlot(f: Fsm, ssi: nat, i: nat)
    requires Inv(f) && i < MAX_CALLS && ssi != 0 && f.slots[i].ssi == ssi
    ensures Find(f.slots, BySsi(ssi), 0) == i
  {
    var own := Find(f.slots, BySsi(ssi), 0);
    assert Matches(f.slots[i], BySsi(ssi));
    assert own != i ==> Clash(f.slots[own], f.slots[i]);
  }

  // ---- U-RELEASE and U-DISCONNECT ----

  /** D-RELEASE to the sender with its cause; the slot is empty and its timeslot's AACH idle. */
  lemma ReleaseSends(f: Fsm, ssi: nat, cause: nat, w: World, i: nat)
    requires Inv(f) && Supplies(w) && i < MAX_CALLS && ssi != 0 && f.slots[i].ssi == ssi
    ensures var s := f.slots[i];
            var t := s.(ns := if s.ns == 0 then 1 else 0);
            var (g, rc) := Handled(f, ssi, URelease(cause), w);
            && g.slots == f.slots[i := EMPTY] && g.aach == f.aach[s.ts := 0x3000]
            && g.log == f.log + [Aired(WithChannel(DRelease, ssi, t).(cause := cause), t), AachWritten(s.ts, 0x3000)]
                        + OnMask(f, VoiceMask(g.slots, w.clock[0], 8))
                        + (if VoiceMask(g.slots, w.clock[1], 8) == {} then [ClearFiller] else [])
            && rc == w.results[0] && Handled(f, ssi, UDisconnect(cause), w) == (g, rc)
  {
    OwnSlot(f, ssi, i);
    LiveSlot(f, i);
    EndedSends(f, i, f.slots[i].(ns := Flip(f.slots[i].ns)), cause, w);
  }

  lemma EndedSends(f: Fsm, i: nat, t: Slot, cause: nat, w: World)
    requires Shape(f) && Supplies(w) && i < MAX_CALLS && t.ssi != 0 && SlotOk(t) && Announces(f.aach, t)
    ensures var g := Ended(Put(f, i, t), i, cause, w);
            && g.slots == f.slots[i := EMPTY] && g.aach == f.aach[t.ts := 0x3000]
            && g.log == f.log + [Aired(WithChannel(DRelease, t.ssi, t).(cause := cause), t), AachWritten(t.ts, 0x3000)]
                        + OnMask(f, VoiceMask(g.slots, w.clock[0], 8))
                        + (if VoiceMask(g.slots, w.clock[1], 8) == {} then [ClearFiller] else [])
  {
    var e := Put(f, i, t);
    PduOfKind(t, cause);
    SubmitSends(e, DRelease, i, cause, t);
    var h := Freed(Submit(e, DRelease, i, cause), i);
    assert h.slots == f.slots[i := EMPTY];
    assert h.log == f.log + [Aired(WithChannel(DRelease, t.ssi, t).(cause := cause), t), AachWritten(t.ts, 0x3000)];
    MaskEvent(h, VoiceMask(h.slots, w.clock[0], 8), f);
  }

  // ---- PDUs without effect ----

  /** What is not for any slot changes nothing. */
  lemma NothingServed(f: Fsm, ssi: nat, p: Uplink, w: World)
    requires Inv(f) && Supplies(w)
    ensures ssi == 0 || p.Other? ==> Handled(f, ssi, p, w) == (f, -2)
    ensures ssi != 0 && (p.UTxDemand? || p.UConnect? || p.UAlert?)
            && (forall i :: 0 <= i < 8 ==> !Serves(f, i, ssi, p.callId)) ==>
              Handled(f, ssi, p, w) == (f, -1)
    ensures ssi != 0 && (p.UTxCeased? || p.URelease? || p.UDisconnect?) && (forall i :: 0 <= i < 8 ==> f.slots[i].ssi != ssi) ==>
              Handled(f, ssi, p, w) == (f, -1)
  {
    if ssi != 0 && (p.UTxDemand? || p.UConnect? || p.UAlert?) && forall i :: 0 <= i < 8 ==> !Serves(f, i, ssi, p.callId) {
      NoServingSlot(f, ssi, p.callId);
    }
  }

  lemma NoServingSlot(f: Fsm, ssi: nat, callId: nat)
    requires Inv(f) && ssi != 0 && forall i :: 0 <= i < 8 ==> !Serves(f, i, ssi, callId)
    ensures Find(f.slots, BySsi(ssi), 0) == MAX_CALLS && Find(f.slots, ByCallId(callId), 0) == MAX_CALLS
  {
    var own, other := Find(f.slots, BySsi(ssi), 0), Find(f.slots, ByCallId(callId), 0);
    if own < MAX_CALLS {
      assert Serves(f, own, ssi, callId);
    } else if other < MAX_CALLS {
      assert forall j :: 0 <= j < MAX_CALLS ==> !Matches(f.slots[j], BySsi(ssi));
      assert forall j :: 0 <= j < other ==> !Matches(f.slots[j], ByCallId(callId));
      assert Serves(f, other, ssi, callId);
    }
  }

  /** An alert for a call is answered with 0 and changes nothing. */
  lemma AlertIsInformation(f: Fsm, ssi: nat, callId: nat, w: World, i: nat)
    requires Inv(f) && Supplies(w) && Serves(f, i, ssi, callId)
    ensures Handled(f, ssi, UAlert(callId), w) == (f, 0)
  {
    ServingSlot(f, i, ssi, callId);
  }

  // ---- U-SETUP: the slot ----

  /** A caller with a slot keeps it. */
  lemma SetupInOwnSlot(f: Fsm, ssi: nat, cp: nat, group: bool, i: nat)
    requires Inv(f) && i < MAX_CALLS && ssi != 0 && f.slots[i].ssi == ssi
    ensures SetupSlot(f, ssi, cp, group) == (f, i)
  {
    OwnSlot(f, ssi, i);
  }

  predicate Unknown(f: Fsm, ssi: nat)
    requires Shape(f)
  {
    forall j :: 0 <= j < MAX_CALLS ==> f.slots[j].ssi != ssi
  }

  /** The first slot that runs the group's call. */
  predicate RunsGroup(f: Fsm, i: nat, cp: nat)
    requires Shape(f)
  {
    && i < MAX_CALLS && cp != 0 && f.slots[i].ssi != 0 && f.slots[i].gssi == cp
    && forall j :: 0 <= j < i ==> f.slots[j].ssi == 0 || f.slots[j].gssi != cp
  }

  /** A caller without one takes over the running call of the group, with its channel. */
  lemma SetupTakesOver(f: Fsm, ssi: nat, cp: nat, i: nat)
    requires Inv(f) && ssi != 0 && Unknown(f, ssi) && RunsGroup(f, i, cp)
    ensures SetupSlot(f, ssi, cp, true) == (f.(slots := f.slots[i := f.slots[i].(ssi := ssi, ns := 0, nr := 0)]), i)
  {
    NoOwnSlot(f, ssi);
    assert Matches(f.slots[i], ByGssi(cp));
  }

  lemma NoOwnSlot(f: Fsm, ssi: nat)
    requires Shape(f) && Unknown(f, ssi)
    ensures Find(f.slots, BySsi(ssi), 0) == MAX_CALLS
  {
  }

  /** Otherwise a new slot is tried. */
  lemma SetupAllocates(f: Fsm, ssi: nat, cp: nat, group: bool)
    requires Inv(f) && ssi != 0 && Unknown(f, ssi) && (group ==> forall j :: 0 <= j < MAX_CALLS ==> !RunsGroup(f, j, cp))
    ensures SetupSlot(f, ssi, cp, group) == Allocated(f, ssi)
  {
    NoOwnSlot(f, ssi);
    var running := Find(f.slots, ByGssi(cp), 0);
    if group && running < MAX_CALLS {
      assert forall j :: 0 <= j < running ==> !Matches(f.slots[j], ByGssi(cp));
      assert RunsGroup(f, running, cp);
    }
  }

  /** The lowest voice timeslot without an owner. */
  predicate LowestFree(slots: seq<Slot>, ts: nat) {
    2 <= ts <= 4 && !Owned(slots, ts) && forall t: nat :: 2 <= t < ts ==> Owned(slots, t)
  }

  predicate Owned(slots: seq<Slot>, ts: nat) {
    exists j :: 0 <= j < |slots| && slots[j].ssi != 0 && slots[j].ts == ts
  }

  lemma OwnedIsFound(slots: seq<Slot>, ts: nat)
    ensures Owned(slots, ts) <==> Find(slots, ByTs(ts), 0) < |slots|
  {
    if j :| 0 <= j < |slots| && slots[j].ssi != 0 && slots[j].ts == ts {
      assert Matches(slots[j], ByTs(ts));
    }
  }

  lemma FreeTsIsLowest(slots: seq<Slot>)
    ensures FreeTs(slots) != 0 ==> LowestFree(slots, FreeTs(slots))
    ensures FreeTs(slots) == 0 <==> Owned(slots, 2) && Owned(slots, 3) && Owned(slots, 4)
  {
    OwnedIsFound(slots, 2);
    OwnedIsFound(slots, 3);
    OwnedIsFound(slots, 4);
  }

  /** The first empty slot. */
  predicate FirstEmpty(f: Fsm, i: nat)
    requires Shape(f)
  {
    i < MAX_CALLS && f.slots[i].ssi == 0 && forall j :: 0 <= j < i ==> f.slots[j].ssi != 0
  }

  /** What follows an identifier of 14 bits and a usage marker from 4 to 63. */
  function CallIdAfter(c: nat): nat {
    if c == 16383 then 1 else c + 1
  }

  function MarkerAfter(u: nat): nat {
    if u == 63 then 4 else u + 1
  }

  /**
   * A new call gets the first empty slot, the next identifier and marker, the lowest free voice
   * timeslot and its AACH announcement; without such a timeslot only the counters move on.
   */
  lemma AllocatedSlot(f: Fsm, ssi: nat, i: nat)
    requires Inv(f) && ssi != 0 && FirstEmpty(f, i)
    ensures var (g, k) := Allocated(f, ssi);
            && g.nextCallId == CallIdAfter(f.nextCallId) && g.nextUmt == MarkerAfter(f.nextUmt)
            && (forall ts: nat :: LowestFree(f.slots, ts) ==>
                  && k == i
                  && g.slots == f.slots[i := EMPTY.(ssi := ssi, callId := f.nextCallId, umt := f.nextUmt, ts := ts, nr := 1)]
                  && g.aach == f.aach[ts := 0x3000 + 65 * f.nextUmt]
                  && g.log == f.log + [AachWritten(ts, 0x3000 + 65 * f.nextUmt)])
            && ((forall ts: nat :: !LowestFree(f.slots, ts)) ==> k == MAX_CALLS && g.slots == f.slots && g.log == f.log)
  {
    FirstIsFound(f, i);
    var s := EMPTY.(ssi := ssi, callId := f.nextCallId, nr := 1, umt := f.nextUmt);
    NewOwnsNothing(f.slots, i, s);
    AllocatedAt(f, ssi, i, FreeTs(f.slots));
    FreeTsIsLowest(f.slots);
    forall ts: nat | LowestFree(f.slots, ts)
      ensures FreeTs(f.slots) == ts
    {
      OnlyLowest(f.slots, ts);
    }
  }

  lemma FirstIsFound(f: Fsm, i: nat)
    requires Inv(f) && FirstEmpty(f, i)
    ensures Find(f.slots, Free, 0) == i && f.slots[i] == EMPTY
  {
    FirstFreeIsFound(f.slots, i);
  }

  lemma FirstFreeIsFound(slots: seq<Slot>, i: nat)
    requires i < |slots| && slots[i].ssi == 0 && forall j :: 0 <= j < i ==> slots[j].ssi != 0
    ensures Find(slots, Free, 0) == i
  {
    assert Matches(slots[i], Free);
  }

  lemma AllocatedAt(f: Fsm, ssi: nat, i: nat, ts: nat)
    requires Inv(f) && i < MAX_CALLS && Find(f.slots, Free, 0) == i && f.slots[i] == EMPTY
    requires ts == FreeTs(f.slots[i := EMPTY.(ssi := ssi, callId := f.nextCallId, nr := 1, umt := f.nextUmt)])
    ensures var (g, k) := Allocated(f, ssi);
            && g.nextCallId == CallIdAfter(f.nextCallId) && g.nextUmt == MarkerAfter(f.nextUmt)
            && (ts != 0 ==>
                  && k == i
                  && g.slots == f.slots[i := EMPTY.(ssi := ssi, callId := f.nextCallId, umt := f.nextUmt, ts := ts, nr := 1)]
                  && g.aach == f.aach[ts := 0x3000 + 65 * f.nextUmt]
                  && g.log == f.log + [AachWritten(ts, 0x3000 + 65 * f.nextUmt)])
            && (ts == 0 ==> k == MAX_CALLS && g.slots == f.slots && g.log == f.log)
  {
  }

  lemma OnlyLowest(slots: seq<Slot>, ts: nat)
    requires LowestFree(slots, ts)
    ensures FreeTs(slots) == ts
  {
    FreeTsIsLowest(slots);
  }

  /** The new slot has no timeslot yet. */
  lemma NewOwnsNothing(slots: seq<Slot>, i: nat, s: Slot)
    requires i < |slots| && slots[i].ssi == 0 && s.ts == 0
    ensures FreeTs(slots[i := s]) == FreeTs(slots)
  {
    SameOwners(slots, i, s, 2);
    SameOwners(slots, i, s, 3);
    SameOwners(slots, i, s, 4);
  }

  lemma SameOwners(slots: seq<Slot>, i: nat, s: Slot, ts: nat)
    requires i < |slots| && slots[i].ssi == 0 && s.ts == 0 && ts != 0
    ensures Find(slots[i := s], ByTs(ts), 0) == |slots| <==> Find(slots, ByTs(ts), 0) == |slots|
  {
    OwnedIsFound(slots, ts);
    OwnedIsFound(slots[i := s], ts);
    if j :| 0 <= j < |slots| && slots[j].ssi != 0 && slots[j].ts == ts {
      assert slots[i := s][j].ts == ts;
    }
  }

  lemma NoEmptySlot(f: Fsm, ssi: nat)
    requires Shape(f) && forall i :: 0 <= i < MAX_CALLS ==> f.slots[i].ssi != 0
    ensures Allocated(f, ssi) == (f, MAX_CALLS)
  {
  }

  // ---- U-SETUP: what is sent ----

  /** Called party and kind of call, as the PDU and the registered groups say. */
  lemma SetupOf(f: Fsm, ssi: nat, calledType: nat, calledSsi: nat, ct: nat, w: World)
    requires Shape(f) && Supplies(w) && ssi != 0
    ensures var cp := if calledType == 1 || calledType == 2 then calledSsi % 0x100_0000 else 0;
            Handled(f, ssi, USetup(calledType, calledSsi, ct), w)
            == Setup(f, ssi, cp, cp != 0 && 1 <= ct <= 3 && cp in w.groups, w)
  {
  }

  lemma SetupRefused(f: Fsm, ssi: nat, cp: nat, group: bool, w: World)
    requires Shape(f) && Supplies(w) && SetupSlot(f, ssi, cp, group).1 == MAX_CALLS
    ensures Setup(f, ssi, cp, group, w) == (SetupSlot(f, ssi, cp, group).0, -1)
  {
  }

  /** A group call is connected at once: one D-CONNECT with the channel to the caller, mask and filler. */
  lemma GroupSetupSends(f: Fsm, ssi: nat, cp: nat, w: World)
    requires Inv(f) && Supplies(w) && ssi != 0 && cp != 0 && SetupSlot(f, ssi, cp, true).1 < MAX_CALLS
    ensures var (e, i) := SetupSlot(f, ssi, cp, true);
            var (g, rc) := Setup(f, ssi, cp, true, w);
            var s := e.slots[i];
            && g.slots == e.slots[i := s.(gssi := cp, issi := 0, state := Connected, setupAt := w.clock[0], ceasedAt := 0,
                                          stage := 1,
                                          next := (w.clock[1] + 113) % 0x1_0000_0000, lastActivity := w.clock[2])]
            && g.log == e.log + [Aired(WithChannel(DConnect, ssi, s), s)] + OnMask(e, VoiceMask(g.slots, w.clock[3], 8))
                  + [ClearFiller]
            && rc == w.results[0]
  {
    var (e, i) := SetupSlot(f, ssi, cp, true);
    SetupSlotLive(f, ssi, cp, true);
    var s := e.slots[i].(gssi := cp, issi := 0, state := Connecting, setupAt := w.clock[0], ceasedAt := 0);
    ConnectsAtOnce(Put(e, i, s), i, s, w, e);
  }

  lemma ConnectsAtOnce(f: Fsm, i: nat, s: Slot, w: World, e: Fsm)
    requires Shape(f) && Supplies(w) && i < MAX_CALLS && f.slots[i] == s && s.ssi != 0
    requires s.ts <= 4 && e.cached == f.cached && e.log == f.log
    requires f.aach[s.ts] == AachVoice(s.umt) && s.umt < 64
    ensures var g := GroupSetup(f, i, w);
            && g.slots == f.slots[i := s.(state := Connected, stage := 1, next := (w.clock[1] + 113) % 0x1_0000_0000,
                                          lastActivity := w.clock[2])]
            && g.log == e.log + [Aired(WithChannel(DConnect, s.ssi, s), s)] + OnMask(e, VoiceMask(g.slots, w.clock[3], 8))
                  + [ClearFiller]
  {
    PduOfKind(s, 0);
    var g := Submit(f, DConnect, i, 0);
    assert g == Emit(f, Aired(WithChannel(DConnect, s.ssi, s), s));
    var h := Put(g, i, s.(stage := 1, next := Later(w.clock[1]), lastActivity := w.clock[2], state := Connected));
    MaskEvent(h, VoiceMask(h.slots, w.clock[3], 8), e);
  }

  lemma SetupSlotLive(f: Fsm, ssi: nat, cp: nat, group: bool)
    requires Inv(f) && ssi != 0
    ensures var (e, i) := SetupSlot(f, ssi, cp, group);
            i < MAX_CALLS ==>
              var s := e.slots[i]; s.ssi == ssi && s.ts <= 4 && 4 <= s.umt < 64 && e.aach[s.ts] == AachVoice(s.umt)
  {
    var (e, i) := SetupSlot(f, ssi, cp, group);
    if i < MAX_CALLS {
      SetupSlotShape(f, ssi, cp, group);
      var s := e.slots[i].(state := Connected, stage := 0, gssi := 0, issi := 0);
      SetupSlotKeeps(f, ssi, cp, group, s);
      assert Announces(Put(e, i, s).aach, Put(e, i, s).slots[i]);
    }
  }

  /**
   * An individual call rings: the caller gets a slot grant, D-CALL-PROCEEDING and D-ALERT, the called
   * party D-SETUP, none of them with a channel. Without a called party the caller gets D-SETUP with one.
   */
  lemma RingingSends(f: Fsm, ssi: nat, cp: nat, w: World)
    requires Inv(f) && Supplies(w) && ssi != 0 && SetupSlot(f, ssi, cp, false).1 < MAX_CALLS
    ensures var (e, i) := SetupSlot(f, ssi, cp, false);
            var (g, rc) := Setup(f, ssi, cp, false, w);
            var s := e.slots[i];
            && g.slots == e.slots[i := s.(gssi := 0, issi := cp, state := Connecting, setupAt := w.clock[0], ceasedAt := 0,
                                          stage := 11,
                                          next := (w.clock[1] + 113) % 0x1_0000_0000, lastActivity := w.clock[2])]
            && g.log == e.log + [SlotGrant(ssi), Aired(WithoutChannel(DCallProceeding, ssi, s), s),
                                 Aired(WithoutChannel(DAlert, ssi, s), s),
                                 Aired((if cp != 0 then WithoutChannel(DSetup, cp, s)
                                        else WithChannel(DSetup, ssi, s)).(callingParty := ssi), s)]
            && g.cached == e.cached && g.mask == e.mask && rc == if w.results[2] < 0 then w.results[2] else 0
  {
    var (e, i) := SetupSlot(f, ssi, cp, false);
    SetupSlotLive(f, ssi, cp, false);
    var s := e.slots[i].(gssi := 0, issi := cp, state := Connecting, setupAt := w.clock[0], ceasedAt := 0);
    Rings(Put(e, i, s), i, s, w);
  }

  lemma Rings(f: Fsm, i: nat, s: Slot, w: World)
    requires Shape(f) && Supplies(w) && i < MAX_CALLS && f.slots[i] == s && s.ssi != 0 && s.ts <= 4
    requires f.aach[s.ts] == AachVoice(s.umt) && s.umt < 64 && s.gssi == 0
    ensures IndividualSetup(f, i, w)
            == f.(slots := f.slots[i := s.(state := Connecting, stage := 11, next := (w.clock[1] + 113) % 0x1_0000_0000,
                                           lastActivity := w.clock[2])],
                  log := f.log + [SlotGrant(s.ssi), Aired(WithoutChannel(DCallProceeding, s.ssi, s), s),
                                  Aired(WithoutChannel(DAlert, s.ssi, s), s),
                                  Aired(SetupPdu(s), s)])
  {
    PduOfKind(s, 0);
    var g0 := Emit(f, SlotGrant(s.ssi));
    var g1 := Submit(g0, DCallProceeding, i, 0);
    assert g1 == Emit(g0, Aired(WithoutChannel(DCallProceeding, s.ssi, s), s));
    var g2 := Submit(g1, DAlert, i, 0);
    assert g2 == Emit(g1, Aired(WithoutChannel(DAlert, s.ssi, s), s));
    var g3 := Submit(g2, DSetup, i, 0);
    assert g3 == Emit(g2, Aired(SetupPdu(s), s));
  }
}
