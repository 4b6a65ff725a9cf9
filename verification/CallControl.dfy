/** The call-control state machine as the source runs it: global tables updated in place. */
module CallControl {
  import opened CallModel
  import opened CallInvariant
  import opened Registers
  import Runs = CallRuns

  class CallFsm {
    const slots: array<Slot>
    const aach: array<nat>
    const mask: Register
    var nextCallId: nat
    var nextUmt: nat
    var cached: set<nat>
    ghost var log: seq<Event>

    ghost predicate Valid()
      reads this
    {
      slots.Length == MAX_CALLS && aach.Length == 5
    }

    ghost function View(): Fsm
      reads this, slots, aach, mask
    {
      Fsm(slots[..], nextCallId, nextUmt, cached, aach[..], mask.bits, log)
    }

    /** The daemon clears the mask register when it starts. */
    constructor (mask: Register)
      requires mask.bits == {}
      ensures Valid() && View() == Start() && Inv(View()) && this.mask == mask
      ensures fresh(slots) && fresh(aach)
    {
      this.mask := mask;
      slots := new Slot[MAX_CALLS](_ => EMPTY);
      aach := new nat[5](_ => AACH_IDLE);
      nextCallId, nextUmt := 1, 4;
      cached := ALL_BITS;
      log := [];
      StartHolds();
      new;
      assert slots[..] == Start().slots && aach[..] == Start().aach;
    }

    // ---- Registers ----

    method MaskWriteCached(v: set<nat>)
      requires Valid()
      modifies this, mask
      ensures Valid() && View() == WriteMask(old(View()), v)
    {
      if v == cached {
        return;
      }
      mask.bits := v;
      cached := v;
      log := log + [MaskWritten(v)];
    }

    method ComputeVoiceMask(now: nat) returns (m: set<nat>)
      requires Valid()
      ensures m == VoiceMask(slots[..], now, MAX_CALLS)
    {
      m := {};
      for i := 0 to MAX_CALLS
        invariant m == VoiceMask(slots[..], now, i)
      {
        var s := slots[i];
        if s.ssi == 0 || s.state == Idle || s.state == Releasing || s.state == Connecting {
          continue;
        }
        var age := if s.lastActivity > now then 0 else now - s.lastActivity;
        if age > VOICE_QUIET_MS {
          continue;
        }
        m := m + MaskBit(s.ts);
      }
    }

    method AachWrite(ts: nat, info: nat)
      requires Valid()
      modifies this, aach
      ensures Valid() && View() == WriteAach(old(View()), ts, info)
    {
      if 1 <= ts <= 4 {
        aach[ts] := info;
        log := log + [AachWritten(ts, info)];
      }
    }

    ghost method Record(e: Event)
      requires Valid()
      modifies this
      ensures Valid() && View() == Emit(old(View()), e)
    {
      log := log + [e];
    }

    /** tetra_tx_submit of the PDU for slot i. */
    method Stage(kind: Kind, i: nat, cause: nat)
      requires Valid() && i < MAX_CALLS
      modifies this
      ensures Valid() && View() == Submit(old(View()), kind, i, cause)
    {
      var s := slots[i];
      var m := Meta(kind, s, cause);
      Record(Submitted(m, if s.ts <= 4 then aach[s.ts] else 0));
    }

    /** The fields that the functions staging one PDU each fill in. */
    method Meta(kind: Kind, s: Slot, cause: nat) returns (m: Pdu)
      ensures m == CallPdu(kind, s, cause)
    {
      var bitmap := if s.ts == 1 then 8 else if s.ts == 2 then 4 else if s.ts == 3 then 2 else if s.ts == 4 then 1 else 0;
      m := Pdu(kind, s.ssi, s.callId % 0x4000, s.umt, bitmap, s.ns, s.nr, 0, 0, false);
      match kind {
        case DCallProceeding => m := m.(umt := 0, alloc := 0);
        case DAlert => m := m.(umt := 0, alloc := 0);
        case DSetup =>
          m := m.(callingParty := s.ssi);
          if s.gssi != 0 {
            m := m.(target := s.gssi, pointToMultipoint := true);
          } else if s.issi != 0 {
            m := m.(target := s.issi, umt := 0, alloc := 0);
          }
        case DConnect =>
        case DConnectAck =>
          if s.issi != 0 {
            m := m.(target := s.issi);
          }
        case DTxGranted =>
        case DTxCeased =>
          m := m.(ns := 0, nr := 0);
          if s.gssi != 0 {
            m := m.(target := s.gssi);
          }
        case DRelease => m := m.(cause := cause);
      }
    }

    // ---- Lookups ----

    method Lookup(key: Key) returns (r: nat)
      requires Valid()
      ensures r == Find(slots[..], key, 0)
    {
      for i := 0 to MAX_CALLS
        invariant Find(slots[..], key, 0) == Find(slots[..], key, i)
      {
        if Matches(slots[i], key) {
          return i;
        }
      }
      return MAX_CALLS;
    }

    // ---- Allocation ----

    method AllocUmt() returns (v: nat)
      requires Valid()
      modifies this
      ensures Valid() && v == old(nextUmt) && View() == old(View()).(nextUmt := NextUmt(old(nextUmt)))
    {
      v := nextUmt;
      nextUmt := nextUmt + 1;
      if nextUmt > 63 {
        nextUmt := 4;
      }
    }

    method AllocVoiceTs() returns (ts: nat)
      requires Valid()
      ensures ts == FreeTs(slots[..])
    {
      ghost var s := slots[..];
      for cand := 2 to 5
        invariant forall c :: 2 <= c < cand ==> Find(s, ByTs(c), 0) != MAX_CALLS
      {
        var owner := Lookup(ByTs(cand));
        if owner == MAX_CALLS {
          return cand;
        }
      }
      return 0;
    }

    /** A new call in slot i, without a timeslot yet. */
    method FillSlot(i: nat, ssi: nat)
      requires Valid() && i < MAX_CALLS
      modifies this, slots
      ensures Valid()
      ensures var f := old(View());
              View() == Put(f, i, EMPTY.(ssi := ssi, callId := f.nextCallId, nr := 1, umt := f.nextUmt)).(
                          nextCallId := NextCallId(f.nextCallId), nextUmt := NextUmt(f.nextUmt))
    {
      var callId := nextCallId;
      nextCallId := nextCallId + 1;
      if nextCallId % 0x4000 == 0 {
        nextCallId := 1;
      }
      var umt := AllocUmt();
      slots[i] := EMPTY.(ssi := ssi, callId := callId, nr := 1, umt := umt);
    }

    method AllocSlot(ssi: nat) returns (i: nat)
      requires Valid()
      modifies this, slots, aach
      ensures Valid() && (View(), i) == Allocated(old(View()), ssi)
    {
      i := Lookup(Free);
      if i == MAX_CALLS {
        return;
      }
      FillSlot(i, ssi);
      var ts := AllocVoiceTs();
      if ts == 0 {
        slots[i] := EMPTY;
        return MAX_CALLS;
      }
      slots[i] := slots[i].(ts := ts);
      var umt := slots[i].umt;
      AachWrite(ts, 0x3000 + 64 * (umt % 64) + umt % 64);
    }

    method FreeSlot(i: nat)
      requires Valid() && i < MAX_CALLS
      modifies this, slots, aach
      ensures Valid() && View() == Freed(old(View()), i)
    {
      AachWrite(slots[i].ts, AACH_IDLE);
      slots[i] := EMPTY;
    }

    // ---- Uplink PDUs ----

    method Handle(ssi: nat, p: Uplink, w: World) returns (rc: int)
      requires Valid() && Supplies(w)
      modifies this, slots, aach, mask
      ensures Valid() && (View(), rc) == Handled(old(View()), ssi, p, w)
      ensures old(Inv(View())) ==> Inv(View())
    {
      ghost var f := View();
      if Inv(f) {
        HandledKeeps(f, ssi, p, w);
      }
      if ssi == 0 {
        return -2;
      }
      match p {
        case USetup(calledType, calledSsi, ct) =>
          var cp := if calledType == 1 || calledType == 2 then calledSsi % 0x1000000 else 0;
          var group := cp != 0 && (ct == 1 || ct == 2 || ct == 3);
          if group && cp !in w.groups {
            group := false;
          }
          rc := HandleSetup(ssi, cp, group, w);
        case UTxDemand(callId) => rc := HandleTxDemand(ssi, callId, w);
        case UTxCeased => rc := HandleTxCeased(ssi, w);
        case UConnect(callId) => rc := HandleConnect(ssi, callId, w);
        case UAlert(callId) =>
          var i := OwnOrCalled(ssi, callId);
          rc := if i == MAX_CALLS then -1 else 0;
        case URelease(cause) => rc := HandleRelease(ssi, cause, w);
        case UDisconnect(cause) => rc := HandleRelease(ssi, cause, w);
        case Other => rc := -2;
      }
    }

    method OwnOrCalled(ssi: nat, callId: nat) returns (i: nat)
      requires Valid()
      ensures var own := Find(slots[..], BySsi(ssi), 0);
              i == if own < MAX_CALLS then own else Find(slots[..], ByCallId(callId), 0)
    {
      i := Lookup(BySsi(ssi));
      if i == MAX_CALLS {
        i := Lookup(ByCallId(callId));
      }
    }

    method HandleSetup(ssi: nat, cp: nat, group: bool, w: World) returns (rc: int)
      requires Valid() && Supplies(w)
      modifies this, slots, aach, mask
      ensures Valid() && (View(), rc) == Setup(old(View()), ssi, cp, group, w)
    {
      var i := ChooseSlot(ssi, cp, group);
      if i == MAX_CALLS {
        return -1;
      }
      slots[i] := slots[i].(gssi := if group then cp else 0, issi := if group then 0 else cp, state := Connecting,
                            setupAt := w.clock[0], ceasedAt := 0);
      if group {
        StartGroupCall(i, w);
        return w.results[0];
      } else {
        StartIndividualCall(i, w);
        return if w.results[2] < 0 then w.results[2] else 0;
      }
    }

    /** The caller's own slot, the running group call's, or a new one. */
    method ChooseSlot(ssi: nat, cp: nat, group: bool) returns (i: nat)
      requires Valid()
      modifies this, slots, aach
      ensures Valid() && (View(), i) == SetupSlot(old(View()), ssi, cp, group)
    {
      i := Lookup(BySsi(ssi));
      if i == MAX_CALLS && group {
        i := Lookup(ByGssi(cp));
        if i < MAX_CALLS {
          slots[i] := slots[i].(ssi := ssi, ns := 0, nr := 0);
        }
      }
      if i == MAX_CALLS {
        i := AllocSlot(ssi);
      }
    }

    method StartGroupCall(i: nat, w: World)
      requires Valid() && i < MAX_CALLS && Supplies(w)
      modifies this, slots, mask
      ensures Valid() && View() == GroupSetup(old(View()), i, w)
    {
      Stage(DConnect, i, 0);
      slots[i] := slots[i].(stage := 1, next := (w.clock[1] + 113) % 0x1_0000_0000, lastActivity := w.clock[2],
                            state := Connected);
      var m := ComputeVoiceMask(w.clock[3]);
      MaskWriteCached(m);
      Record(ClearFiller);
    }

    method StartIndividualCall(i: nat, w: World)
      requires Valid() && i < MAX_CALLS && Supplies(w)
      modifies this, slots
      ensures Valid() && View() == IndividualSetup(old(View()), i, w)
    {
      Record(SlotGrant(slots[i].ssi));
      Stage(DCallProceeding, i, 0);
      Stage(DAlert, i, 0);
      Stage(DSetup, i, 0);
      slots[i] := slots[i].(state := Connecting, stage := 11, next := (w.clock[1] + 113) % 0x1_0000_0000,
                            lastActivity := w.clock[2]);
    }

    method HandleTxDemand(ssi: nat, callId: nat, w: World) returns (rc: int)
      requires Valid() && Supplies(w)
      modifies this, slots, mask
      ensures Valid() && (View(), rc) == TxDemand(old(View()), ssi, callId, w)
    {
      ghost var f := View();
      var own := Lookup(BySsi(ssi));
      var i := own;
      if own == MAX_CALLS {
        i := Lookup(ByCallId(callId));
        if i == MAX_CALLS {
          return -1;
        }
        slots[i] := slots[i].(ssi := ssi, ns := 0, nr := 0);
      }
      var s := slots[i];
      slots[i] := s.(ns := if s.ns == 0 then 1 else 0);
      assert View() == Put(f, i, s.(ns := Flip(s.ns)));
      GrantFloor(i, w);
      return w.results[0];
    }

    method GrantFloor(i: nat, w: World)
      requires Valid() && i < MAX_CALLS && Supplies(w)
      modifies this, slots, mask
      ensures Valid() && View() == Granted(old(View()), i, w)
    {
      Stage(DTxGranted, i, 0);
      slots[i] := slots[i].(state := Talker, lastActivity := w.clock[0]);
      var m := ComputeVoiceMask(w.clock[1]);
      MaskWriteCached(m);
    }

    method HandleTxCeased(ssi: nat, w: World) returns (rc: int)
      requires Valid() && Supplies(w)
      modifies this, slots
      ensures Valid() && (View(), rc) == TxCeased(old(View()), ssi, w)
    {
      var i := Lookup(BySsi(ssi));
      if i == MAX_CALLS {
        return -1;
      }
      ghost var f := View();
      var now := w.clock[0];
      slots[i] := slots[i].(state := Connected);
      if slots[i].ceasedAt == 0 {
        slots[i] := slots[i].(ceasedAt := now);
      }
      slots[i] := slots[i].(lastActivity := now);
      assert View() == Put(f, i, f.slots[i].(state := Connected, ceasedAt := Orelse(f.slots[i].ceasedAt, now),
                                             lastActivity := now));
      var reps := if slots[i].ceasedAt == now then 3 else 1;
      Stage(DTxCeased, i, 0);
      if reps == 3 {
        Stage(DTxCeased, i, 0);
        Stage(DTxCeased, i, 0);
      }
      return w.results[reps - 1];
    }

    method HandleConnect(ssi: nat, callId: nat, w: World) returns (rc: int)
      requires Valid() && Supplies(w)
      modifies this, slots, mask
      ensures Valid() && (View(), rc) == Answer(old(View()), ssi, callId, w)
    {
      var i := OwnOrCalled(ssi, callId);
      if i == MAX_CALLS {
        return -1;
      }
      Connect(i, w);
      return if w.results[0] < 0 then w.results[0] else w.results[1];
    }

    method Connect(i: nat, w: World)
      requires Valid() && i < MAX_CALLS && Supplies(w)
      modifies this, slots, mask
      ensures Valid() && View() == Answered(old(View()), i, w)
    {
      Stage(DConnect, i, 0);
      Stage(DConnectAck, i, 0);
      slots[i] := slots[i].(state := Connected, stage := 0, lastActivity := w.clock[0]);
      var m := ComputeVoiceMask(w.clock[1]);
      MaskWriteCached(m);
      Record(ClearFiller);
    }

    method HandleRelease(ssi: nat, cause: nat, w: World) returns (rc: int)
      requires Valid() && Supplies(w)
      modifies this, slots, aach, mask
      ensures Valid() && (View(), rc) == Release(old(View()), ssi, cause, w)
    {
      var i := Lookup(BySsi(ssi));
      if i == MAX_CALLS {
        return -1;
      }
      slots[i] := slots[i].(ns := Flip(slots[i].ns));
      EndCall(i, cause, w);
      return w.results[0];
    }

    method EndCall(i: nat, cause: nat, w: World)
      requires Valid() && i < MAX_CALLS && Supplies(w)
      modifies this, slots, aach, mask
      ensures Valid() && View() == Ended(old(View()), i, cause, w)
    {
      Stage(DRelease, i, cause);
      FreeSlot(i);
      var m := ComputeVoiceMask(w.clock[0]);
      MaskWriteCached(m);
      m := ComputeVoiceMask(w.clock[1]);
      if m == {} {
        Record(ClearFiller);
      }
    }

    // ---- Watchdog tick ----

    method NotifyUlBurst(b: Burst)
      requires Valid()
      modifies slots
      ensures Valid() && View() == Refreshed(old(View()), b)
    {
      if b.NoBurst? || b.ts < 1 || b.ts > 4 {
        return;
      }
      var i := Lookup(ByTs(b.ts));
      if i < MAX_CALLS {
        slots[i] := slots[i].(lastActivity := b.ms);
      }
    }

    method RunSequencer(i: nat, now: nat)
      requires Valid() && i < MAX_CALLS
      modifies this, slots
      ensures Valid() && View() == Sequenced(old(View()), i, now)
    {
      var s := slots[i];
      if s.stage > 0 && Due(s.next, now) {
        if s.stage == 1 {
          Stage(DConnect, i, 0);
          slots[i] := s.(stage := 2, next := (now + 113) % 0x1_0000_0000);
        } else if s.stage == 2 {
          if s.gssi != 0 || s.issi != 0 {
            Stage(DSetup, i, 0);
          }
          slots[i] := s.(stage := 0);
        } else if s.stage == 11 {
          Stage(DSetup, i, 0);
          slots[i] := s.(stage := 0);
        }
      }
    }

    method ClearFillerBank(ts: nat)
      requires Valid()
      modifies this
      ensures Valid() && View() == ClearBank(old(View()), ts)
    {
      if 1 <= ts <= 4 {
        Record(ClearFillerTs(ts));
      }
    }

    method TakeTurn(i: nat, now: nat, b: Burst)
      requires Valid() && i < MAX_CALLS
      modifies this, slots, aach
      ensures Valid() && View() == Turn(old(View()), i, now, b)
    {
      if slots[i].ssi == 0 {
        return;
      }
      RunSequencer(i, now);
      var s := slots[i];
      var age := if s.lastActivity > now then 0 else now - s.lastActivity;
      if s.state == Connecting {
        var ringAge := if now > s.setupAt then now - s.setupAt else 0;
        if ringAge > ALERT_TIMEOUT_MS {
          Stage(DRelease, i, 0);
          FreeSlot(i);
        }
        return;
      }
      if s.state != Idle && age > CALL_STALE_MS {
        ClearFillerBank(s.ts);
        FreeSlot(i);
        return;
      }
      if age > VOICE_QUIET_MS {
        ClearFillerBank(s.ts);
      }
      if s.gssi != 0 || s.issi != 0 {
        NotifyUlBurst(b);
      }
    }

    method RunTick(now: nat, bursts: seq<Burst>, later: nat)
      requires Valid() && |bursts| == MAX_CALLS
      modifies this, slots, aach, mask
      ensures Valid() && View() == Ticked(old(View()), now, bursts, later)
      ensures old(Inv(View())) ==> Inv(View()) && mask.bits * LOW_BITS == VoiceMask(slots[..], later, MAX_CALLS)
    {
      ghost var f := View();
      if Inv(f) {
        TickedKeeps(f, now, bursts, later);
      }
      for i := 0 to MAX_CALLS
        invariant Valid() && View() == Turns(f, now, bursts, i)
      {
        TakeTurn(i, now, bursts[i]);
      }
      var m := ComputeVoiceMask(later);
      MaskWriteCached(m);
    }

    // ---- Late entry ----

    method NotifyLateEntry(gssi: nat) returns (n: nat)
      requires Valid()
      modifies this
      ensures Valid() && View() == LateEntry(old(View()), gssi)
      ensures n == |JoiningLate(old(slots[..]), gssi, MAX_CALLS)|
      ensures old(Inv(View())) ==> Inv(View())
    {
      ghost var f := View();
      if Inv(f) {
        Runs.NextKeeps(f, Runs.Late(gssi));
      }
      if gssi == 0 {
        assert JoiningLate(slots[..], gssi, MAX_CALLS) == {};
        return 0;
      }
      n := 0;
      for i := 0 to MAX_CALLS
        invariant Valid() && View() == Announced(f, gssi, i)
        invariant n == |JoiningLate(f.slots, gssi, i)|
      {
        JoiningLateNext(f.slots, gssi, i, i + 1);
        var s := slots[i];
        if s.ssi == 0 || s.gssi != gssi || (s.state != Connected && s.state != Talker) {
          continue;
        }
        Stage(DSetup, i, 0);
        n := n + 1;
      }
    }
  }
}
