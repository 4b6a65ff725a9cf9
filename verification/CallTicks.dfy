/** What a watchdog tick and a late entry send, and what a tick makes of the slots. */
module CallTicks {
  import opened CallModel
  import opened CallInvariant
  import opened CallRuns
  import opened CallEffects

  // ---- One turn ----

  /** The sequencer's PDU: D-CONNECT to the caller of a group call, later D-SETUP. */
  function SequencerLog(s: Slot, now: nat): (log: seq<Event>) {
    if s.stage == 0 || !Due(s.next, now) then []
    else if s.stage == 1 then [Aired(WithChannel(DConnect, s.ssi, s), s)]
    else [Aired(SetupPdu(s), s)]
  }

  /** More than the given time after a moment. */
  predicate Over(since: nat, ms: nat, now: nat) {
    now > since + ms
  }

  /** D-RELEASE for a call that rang for more than 20 s. */
  predicate RangOut(s: Slot, now: nat) {
    s.state == Connecting && Over(s.setupAt, 20000, now)
  }

  /** A connected call without a burst for more than 5 s. */
  predicate WentStale(s: Slot, now: nat) {
    s.state != Connecting && Over(s.lastActivity, 5000, now)
  }

  /** A connected call without one for more than 300 ms. */
  predicate FellQuiet(s: Slot, now: nat) {
    s.state != Connecting && Over(s.lastActivity, 300, now)
  }

  /** The rest of the turn: release and idle AACH, or a cleared filler bank with or without idle AACH. */
  function WatchdogLog(s: Slot, now: nat): (log: seq<Event>) {
    if RangOut(s, now) then [Aired(WithChannel(DRelease, s.ssi, s), s), AachWritten(s.ts, 0x3000)]
    else if WentStale(s, now) then [ClearFillerTs(s.ts), AachWritten(s.ts, 0x3000)]
    else if FellQuiet(s, now) then [ClearFillerTs(s.ts)]
    else []
  }

  function TurnLog(s: Slot, now: nat): (log: seq<Event>) {
    if s.ssi == 0 then [] else SequencerLog(s, now) + WatchdogLog(s, now)
  }

  /** The slot behind the sequencer. */
  function AfterStage(s: Slot, now: nat): Slot {
    if s.stage == 0 || !Due(s.next, now) then s
    else if s.stage == 1 then s.(stage := 2, next := (now + 113) % 0x1_0000_0000)
    else s.(stage := 0)
  }

  lemma SequencedAdds(f: Fsm, i: nat, now: nat)
    requires Inv(f) && i < MAX_CALLS && f.slots[i].ssi != 0
    ensures var s := f.slots[i];
            Sequenced(f, i, now) == f.(slots := f.slots[i := AfterStage(s, now)], log := f.log + SequencerLog(s, now))
  {
    var s := f.slots[i];
    LiveSlot(f, i);
    PduOfKind(s, 0);
    SubmitSends(f, DConnect, i, 0, s);
    SubmitSends(f, DSetup, i, 0, s);
  }

  /**
   * One turn sends exactly this; the slot is empty and its AACH idle afterwards if the call rang out
   * or went stale.
   */
  lemma TurnAdds(f: Fsm, i: nat, now: nat, b: Burst)
    requires Inv(f) && i < MAX_CALLS
    ensures var s, g := f.slots[i], Turn(f, i, now, b);
            && g.log == f.log + TurnLog(s, now)
            && (s.ssi != 0 && (RangOut(s, now) || WentStale(s, now)) ==>
                  g.slots == f.slots[i := EMPTY] && g.aach == f.aach[s.ts := 0x3000])
            && (s.ssi == 0 ==> g == f)
  {
    var s := f.slots[i];
    if s.ssi != 0 {
      LiveSlot(f, i);
      SequencedAdds(f, i, now);
      RestAdds(f, Sequenced(f, i, now), i, now, b, s, AfterStage(s, now));
    }
  }

  lemma RestAdds(f: Fsm, g: Fsm, i: nat, now: nat, b: Burst, s: Slot, t: Slot)
    requires Shape(f) && i < MAX_CALLS && s == f.slots[i] && s.ssi != 0 && SlotOk(s)
    requires Announces(f.aach, s) && g == Sequenced(f, i, now)
    requires t == AfterStage(s, now) && g == f.(slots := f.slots[i := t], log := f.log + SequencerLog(s, now))
    ensures var h := Turn(f, i, now, b);
            && h.log == f.log + SequencerLog(s, now) + WatchdogLog(s, now)
            && (RangOut(s, now) || WentStale(s, now) ==> h.slots == f.slots[i := EMPTY] && h.aach == f.aach[s.ts := 0x3000])
  {
    if RangOut(s, now) {
      ReleaseAtTurn(g, i, s, t);
    } else if WentStale(s, now) {
      assert Turn(f, i, now, b) == Freed(ClearBank(g, t.ts), i);
    }
  }

  lemma ReleaseAtTurn(g: Fsm, i: nat, s: Slot, t: Slot)
    requires Shape(g) && i < MAX_CALLS && t == g.slots[i] && s.ssi != 0 && SlotOk(s) && Announces(g.aach, s)
    requires t == s.(stage := t.stage, next := t.next)
    ensures Submit(g, DRelease, i, 0) == Emit(g, Aired(WithChannel(DRelease, s.ssi, s), s))
  {
    PduOfKind(s, 0);
  }

  /** After its turn a call that was not dropped has only moved on in its set-up, or was refreshed by a burst. */
  lemma TurnKeepsOthers(f: Fsm, i: nat, now: nat, b: Burst)
    requires Inv(f) && i < MAX_CALLS && f.slots[i].ssi != 0 && !RangOut(f.slots[i], now) && !WentStale(f.slots[i], now)
    ensures var s := f.slots[i];
            var slots := f.slots[i := AfterStage(s, now)];
            var heard := s.state != Connecting && (s.gssi != 0 || s.issi != 0) && b.Heard? && 1 <= b.ts <= 4;
            Turn(f, i, now, b).slots == if heard && Owned(slots, b.ts) then Bumped(slots, b) else slots
  {
    LiveSlot(f, i);
    SequencedAdds(f, i, now);
    BurstBumps(Sequenced(f, i, now), b);
    BurstBumps(ClearBank(Sequenced(f, i, now), f.slots[i].ts), b);
  }

  lemma BurstBumps(f: Fsm, b: Burst)
    requires Shape(f)
    ensures Refreshed(f, b).slots
            == if b.Heard? && 1 <= b.ts <= 4 && Owned(f.slots, b.ts) then Bumped(f.slots, b) else f.slots
  {
    if b.Heard? {
      OwnedIsFound(f.slots, b.ts);
    }
  }

  /** The first owner of the burst's timeslot was heard at its time. */
  function Bumped(slots: seq<Slot>, b: Burst): (r: seq<Slot>)
    requires b.Heard? && Owned(slots, b.ts)
  {
    OwnedIsFound(slots, b.ts);
    var k := Find(slots, ByTs(b.ts), 0);
    slots[k := slots[k].(lastActivity := b.ms)]
  }

  /** Over the limit as the watchdog computes it. */
  lemma LimitsAreThese(s: Slot, now: nat)
    ensures Speaking(s, now) <==> s.ssi != 0 && (s.state == Connected || s.state == Talker) && now <= s.lastActivity + 300
    ensures s.ssi != 0 && s.state != Idle ==> (Expired(s, now) <==> RangOut(s, now) || WentStale(s, now))
  {
  }

  // ---- A tick ----

  /** What the turns of slots send, one after the other. */
  function TurnLogs(slots: seq<Slot>, now: nat, n: nat): (log: seq<Event>)
    requires n <= |slots|
  {
    if n == 0 then [] else TurnLogs(slots, now, n - 1) + TurnLog(slots[n - 1], now)
  }

  lemma {:induction false} QuietTurnsAdd(f: Fsm, now: nat, bursts: seq<Burst>, n: nat)
    requires Inv(f) && n <= MAX_CALLS == |bursts| && forall k :: 0 <= k < |bursts| ==> bursts[k] == NoBurst
    ensures Turns(f, now, bursts, n).log == f.log + TurnLogs(f.slots, now, n)
    decreases n, 1
  {
    if n > 0 {
      OneMoreTurnAdds(f, now, bursts, n - 1, n);
    }
  }

  lemma {:induction false} OneMoreTurnAdds(f: Fsm, now: nat, bursts: seq<Burst>, m: nat, n: nat)
    requires Inv(f) && n == m + 1 <= MAX_CALLS == |bursts| && forall k :: 0 <= k < |bursts| ==> bursts[k] == NoBurst
    ensures Turns(f, now, bursts, n).log == f.log + TurnLogs(f.slots, now, n)
    decreases n, 0
  {
    QuietTurnsAdd(f, now, bursts, m);
    QuietTurnAdds(f, now, bursts, m, n);
    Regroup(f.log, TurnLogs(f.slots, now, m), TurnLog(f.slots[m], now), TurnLogs(f.slots, now, n));
  }

  lemma Regroup(a: seq<Event>, b: seq<Event>, c: seq<Event>, d: seq<Event>)
    requires d == b + c
    ensures (a + b) + c == a + d
  {
  }

  lemma QuietTurnAdds(f: Fsm, now: nat, bursts: seq<Burst>, m: nat, n: nat)
    requires Inv(f) && n == m + 1 <= MAX_CALLS == |bursts| && forall k :: 0 <= k < |bursts| ==> bursts[k] == NoBurst
    ensures Turns(f, now, bursts, n).log == Turns(f, now, bursts, m).log + TurnLog(f.slots[m], now)
  {
    TurnsKeep(f, now, bursts, m);
    QuietTurns(f, now, bursts, m, m);
    TurnAdds(Turns(f, now, bursts, m), m, now, bursts[m]);
  }

  /** A tick without bursts sends exactly this for the slots as they are, and writes the mask. */
  lemma QuietTickAdds(f: Fsm, now: nat, bursts: seq<Burst>, later: nat)
    requires Inv(f) && |bursts| == MAX_CALLS && forall k :: 0 <= k < |bursts| ==> bursts[k] == NoBurst
    ensures var g := Ticked(f, now, bursts, later);
            g.log == f.log + TurnLogs(f.slots, now, 8) + OnMask(f, VoiceMask(g.slots, later, 8))
  {
    QuietTurnsAdd(f, now, bursts, MAX_CALLS);
    TurnsLeaveMask(f, now, bursts, MAX_CALLS);
    var g := Turns(f, now, bursts, MAX_CALLS);
    MaskEvent(g, VoiceMask(g.slots, later, 8), f);
  }

  // ---- Late entry ----

  function GroupSetup(s: Slot, gssi: nat): Pdu {
    WithChannel(DSetup, gssi, s).(callingParty := s.ssi, pointToMultipoint := true)
  }

  /** D-SETUP with the channel to the group, once for each of its running calls. */
  function LateLog(slots: seq<Slot>, gssi: nat, n: nat): (log: seq<Event>)
    requires n <= |slots|
  {
    if n == 0 then []
    else
      var s := slots[n - 1];
      LateLog(slots, gssi, n - 1)
      + if s.ssi != 0 && s.gssi == gssi && (s.state == Connected || s.state == Talker)
        then [Aired(GroupSetup(s, gssi), s)]
        else []
  }

  lemma {:induction false} AnnouncedAdds(f: Fsm, gssi: nat, n: nat)
    requires Inv(f) && gssi != 0 && n <= MAX_CALLS
    ensures Announced(f, gssi, n) == f.(log := f.log + LateLog(f.slots, gssi, n))
    decreases n, 1
  {
    if n > 0 {
      OneMoreAnnounced(f, gssi, n - 1, n);
    }
  }

  lemma {:induction false} OneMoreAnnounced(f: Fsm, gssi: nat, m: nat, n: nat)
    requires Inv(f) && gssi != 0 && n == m + 1 <= MAX_CALLS
    ensures Announced(f, gssi, n) == f.(log := f.log + LateLog(f.slots, gssi, n))
    decreases n, 0
  {
    AnnouncedAdds(f, gssi, m);
    var s, g := f.slots[m], Announced(f, gssi, m);
    if JoinsLate(s, gssi) {
      LiveSlot(f, m);
      SetupToGroup(g, gssi, m, s);
      Regroup(f.log, LateLog(f.slots, gssi, m), [Aired(GroupSetup(s, gssi), s)], LateLog(f.slots, gssi, n));
    }
  }

  lemma SetupToGroup(g: Fsm, gssi: nat, i: nat, s: Slot)
    requires Shape(g) && i < MAX_CALLS && s == g.slots[i] && s.ssi != 0 && s.gssi == gssi != 0
    requires SlotOk(s) && Announces(g.aach, s)
    ensures Submit(g, DSetup, i, 0) == Emit(g, Aired(GroupSetup(s, gssi), s))
  {
    PduOfKind(s, 0);
    SubmitSends(g, DSetup, i, 0, s);
  }

  /** A late entry sends exactly these, and nothing without a group. */
  lemma LateEntryAdds(f: Fsm, gssi: nat)
    requires Inv(f)
    ensures LateEntry(f, gssi) == if gssi == 0 then f else f.(log := f.log + LateLog(f.slots, gssi, 8))
  {
    if gssi != 0 {
      AnnouncedAdds(f, gssi, MAX_CALLS);
    }
  }

  /** One PDU for each call that is counted. */
  lemma {:induction false} LateLogCounts(slots: seq<Slot>, gssi: nat, n: nat)
    requires n <= |slots| && gssi != 0
    ensures |LateLog(slots, gssi, n)| == |JoiningLate(slots, gssi, n)|
  {
    if n > 0 {
      LateLogCounts(slots, gssi, n - 1);
      JoiningLateNext(slots, gssi, n - 1, n);
    } else {
      assert JoiningLate(slots, gssi, 0) == {};
    }
  }
}
