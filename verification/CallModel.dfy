/**
 * The call-control state machine as a function of its inputs: slots, allocation of timeslots and
 * usage markers, the AACH registers and the voice mask register.
 */
module CallModel {

  const MAX_CALLS: nat := 8
  const VOICE_QUIET_MS: nat := 300
  const CALL_STALE_MS: nat := 5000
  const ALERT_TIMEOUT_MS: nat := 20000
  const SETUP_SPACING_MS: nat := 113
  const CLOCK_RANGE: nat := 0x1_0000_0000
  const AACH_IDLE: nat := 0x3000

  datatype CallState = Idle | Connecting | Connected | Talker | Releasing

  /** One call; ssi 0 marks an empty slot. */
  datatype Slot = Slot(ssi: nat, gssi: nat, issi: nat, callId: nat, umt: nat, ts: nat, state: CallState, ns: nat, nr: nat,
                       lastActivity: nat, stage: nat, next: nat, setupAt: nat, ceasedAt: nat)

  const EMPTY := Slot(0, 0, 0, 0, 0, 0, Idle, 0, 0, 0, 0, 0, 0, 0)

  datatype Kind = DCallProceeding | DAlert | DSetup | DConnect | DConnectAck | DTxGranted | DTxCeased | DRelease

  /** The fields of a downlink PDU that depend on the call. */
  datatype Pdu = Pdu(kind: Kind, target: nat, callId: nat, umt: nat, alloc: nat, ns: nat, nr: nat, cause: nat,
                     callingParty: nat, pointToMultipoint: bool)

  /** What leaves the state machine; a submission carries the AACH value its timeslot has at that moment. */
  datatype Event =
    | Submitted(pdu: Pdu, aach: nat)
    | SlotGrant(ssi: nat)
    | ClearFiller
    | ClearFillerTs(ts: nat)
    | AachWritten(ts: nat, info: nat)
    | MaskWritten(bits: set<nat>)

  /** Registers are sets of the positions that are 1; cached is the mask last written. */
  datatype Fsm = Fsm(slots: seq<Slot>, nextCallId: nat, nextUmt: nat, cached: set<nat>, aach: seq<nat>, mask: set<nat>,
                     log: seq<Event>)

  /** All 32 positions, the cache's start value. */
  const ALL_BITS: set<nat> := set k: nat | k < 32
  const LOW_BITS: set<nat> := {0, 1, 2, 3}

  function Start(): Fsm {
    Fsm(seq(MAX_CALLS, _ => EMPTY), 1, 4, ALL_BITS, seq(5, _ => AACH_IDLE), {}, [])
  }

  // ---- Lookups ----

  datatype Key = BySsi(ssi: nat) | ByCallId(callId: nat) | ByGssi(gssi: nat) | ByTs(ts: nat) | Free

  predicate Matches(s: Slot, key: Key) {
    match key
    case BySsi(x) => s.ssi == x && x != 0
    case ByCallId(c) => c != 0 && s.ssi != 0 && s.callId == c
    case ByGssi(g) => g != 0 && s.ssi != 0 && s.gssi == g
    case ByTs(ts) => s.ssi != 0 && s.ts == ts
    case Free => s.ssi == 0
  }

  /** The first matching slot from position i on, or the number of slots. */
  function Find(slots: seq<Slot>, key: Key, i: nat): (r: nat)
    requires i <= |slots|
    ensures i <= r <= |slots| && (r < |slots| ==> Matches(slots[r], key))
    ensures forall j :: i <= j < r ==> !Matches(slots[j], key)
    decreases |slots| - i
  {
    if i == |slots| || Matches(slots[i], key) then i else Find(slots, key, i + 1)
  }

  /** The lowest voice timeslot that no call owns, or 0. */
  function FreeTs(slots: seq<Slot>): (ts: nat)
    ensures ts == 0 || 2 <= ts <= 4
    ensures ts != 0 ==> Find(slots, ByTs(ts), 0) == |slots|
  {
    if Find(slots, ByTs(2), 0) == |slots| then 2
    else if Find(slots, ByTs(3), 0) == |slots| then 3
    else if Find(slots, ByTs(4), 0) == |slots| then 4
    else 0
  }

  // ---- Registers ----

  function AachVoice(umt: nat): nat {
    0x3000 + 64 * (umt % 64) + umt % 64
  }

  /** MSB-first bitmap of timeslots 1 to 4. */
  function ChanAlloc(ts: nat): nat {
    match ts
    case 1 => 8
    case 2 => 4
    case 3 => 2
    case 4 => 1
    case _ => 0
  }

  function WriteAach(f: Fsm, ts: nat, info: nat): Fsm
    requires |f.aach| == 5
  {
    if 1 <= ts <= 4 then f.(aach := f.aach[ts := info], log := f.log + [AachWritten(ts, info)]) else f
  }

  function WriteMask(f: Fsm, v: set<nat>): Fsm {
    if v == f.cached then f else f.(cached := v, mask := v, log := f.log + [MaskWritten(v)])
  }

  /** The end of the set-up spacing on the 32-bit millisecond clock. */
  function Later(ms: nat): (t: nat)
    ensures t < CLOCK_RANGE
  {
    (ms + SETUP_SPACING_MS) % CLOCK_RANGE
  }

  /** The signed 32-bit difference of the two readings is not negative. */
  predicate Due(next: nat, now: nat) {
    (now - next) % CLOCK_RANGE < 0x8000_0000
  }

  function Age(since: nat, now: nat): nat {
    if since > now then 0 else now - since
  }

  /** A call past ringing whose uplink was heard within the quiet time. */
  predicate Speaking(s: Slot, now: nat) {
    && s.ssi != 0 && s.state != Idle && s.state != Releasing && s.state != Connecting
    && Age(s.lastActivity, now) <= VOICE_QUIET_MS
  }

  function MaskBit(ts: nat): set<nat> {
    if 1 <= ts <= 4 then {(ts - 1) as nat} else {}
  }

  /** Mask positions of the speaking calls among the first n slots. */
  function VoiceMask(slots: seq<Slot>, now: nat, n: nat): (m: set<nat>)
    requires n <= |slots|
  {
    if n == 0 then {}
    else VoiceMask(slots, now, n - 1) + if Speaking(slots[n - 1], now) then MaskBit(slots[n - 1].ts) else {}
  }

  function Emit(f: Fsm, e: Event): Fsm {
    f.(log := f.log + [e])
  }

  function Put(f: Fsm, i: nat, s: Slot): Fsm
    requires i < |f.slots|
  {
    f.(slots := f.slots[i := s])
  }

  // ---- PDUs ----

  function Orelse(a: nat, b: nat): nat {
    if a != 0 then a else b
  }

  /** One-bit sequence numbers alternate. */
  function Flip(n: nat): nat {
    if n == 0 then 1 else 0
  }

  function CallPdu(kind: Kind, s: Slot, cause: nat): Pdu {
    match kind
    case DCallProceeding => Pdu(kind, s.ssi, s.callId % 0x4000, 0, 0, s.ns, s.nr, 0, 0, false)
    case DAlert => Pdu(kind, s.ssi, s.callId % 0x4000, 0, 0, s.ns, s.nr, 0, 0, false)
    case DSetup =>
      var ringing := s.gssi == 0 && s.issi != 0;
      Pdu(kind, Orelse(s.gssi, Orelse(s.issi, s.ssi)), s.callId % 0x4000, if ringing then 0 else s.umt,
          if ringing then 0 else ChanAlloc(s.ts), s.ns, s.nr, 0, s.ssi, s.gssi != 0)
    case DConnect => Pdu(kind, s.ssi, s.callId % 0x4000, s.umt, ChanAlloc(s.ts), s.ns, s.nr, 0, 0, false)
    case DConnectAck => Pdu(kind, Orelse(s.issi, s.ssi), s.callId % 0x4000, s.umt, ChanAlloc(s.ts), s.ns, s.nr, 0, 0, false)
    case DTxGranted => Pdu(kind, s.ssi, s.callId % 0x4000, s.umt, ChanAlloc(s.ts), s.ns, s.nr, 0, 0, false)
    case DTxCeased => Pdu(kind, Orelse(s.gssi, s.ssi), s.callId % 0x4000, s.umt, ChanAlloc(s.ts), 0, 0, 0, 0, false)
    case DRelease => Pdu(kind, s.ssi, s.callId % 0x4000, s.umt, ChanAlloc(s.ts), s.ns, s.nr, cause, 0, false)
  }

  function Submit(f: Fsm, kind: Kind, i: nat, cause: nat): Fsm
    requires i < |f.slots| && |f.aach| == 5
  {
    var s := f.slots[i];
    Emit(f, Submitted(CallPdu(kind, s, cause), if s.ts <= 4 then f.aach[s.ts] else 0))
  }

  // ---- Slots ----

  function NextCallId(c: nat): nat {
    if (c + 1) % 0x4000 == 0 then 1 else c + 1
  }

  function NextUmt(u: nat): nat {
    if u + 1 > 63 then 4 else u + 1
  }

  predicate Shape(f: Fsm) {
    |f.slots| == MAX_CALLS && |f.aach| == 5
  }

  /** A new slot for ssi and its position; MAX_CALLS when slots or timeslots have run out. */
  function Allocated(f: Fsm, ssi: nat): (r: (Fsm, nat))
    requires Shape(f)
    ensures Shape(r.0) && r.1 <= MAX_CALLS
  {
    var i := Find(f.slots, Free, 0);
    if i == MAX_CALLS then (f, MAX_CALLS)
    else
      var s := EMPTY.(ssi := ssi, callId := f.nextCallId, nr := 1, umt := f.nextUmt);
      var g := Put(f, i, s).(nextCallId := NextCallId(f.nextCallId), nextUmt := NextUmt(f.nextUmt));
      var ts := FreeTs(g.slots);
      if ts == 0 then (Put(g, i, EMPTY), MAX_CALLS)
      else (WriteAach(Put(g, i, s.(ts := ts)), ts, AachVoice(s.umt)), i)
  }

  function Freed(f: Fsm, i: nat): (g: Fsm)
    requires Shape(f) && i < MAX_CALLS
    ensures Shape(g)
  {
    Put(WriteAach(f, f.slots[i].ts, AACH_IDLE), i, EMPTY)
  }

  // ---- Uplink PDUs ----

  datatype Uplink =
    | USetup(calledType: nat, calledSsi: nat, communicationType: nat)
    | UTxDemand(callId: nat)
    | UTxCeased
    | UConnect(callId: nat)
    | UAlert(callId: nat)
    | URelease(cause: nat)
    | UDisconnect(cause: nat)
    | Other

  /** What the outside supplies during one call: clock readings in order, submission results, and registered groups. */
  datatype World = World(clock: seq<nat>, results: seq<int>, groups: set<nat>)

  predicate Supplies(w: World) {
    |w.clock| == 4 && |w.results| == 3
  }

  function CalledSsi(calledType: nat, calledSsi: nat): nat {
    if calledType == 1 || calledType == 2 then calledSsi % 0x1000000 else 0
  }

  predicate IsGroupCall(cp: nat, communicationType: nat, groups: set<nat>) {
    cp != 0 && (communicationType == 1 || communicationType == 2 || communicationType == 3) && cp in groups
  }

  /** The slot that a set-up from ssi uses: its own, the running group call's, or a new one. */
  function SetupSlot(f: Fsm, ssi: nat, cp: nat, group: bool): (r: (Fsm, nat))
    requires Shape(f)
    ensures Shape(r.0) && r.1 <= MAX_CALLS
  {
    var own := Find(f.slots, BySsi(ssi), 0);
    if own < MAX_CALLS then (f, own)
    else
      var running := if group then Find(f.slots, ByGssi(cp), 0) else MAX_CALLS;
      if running < MAX_CALLS then (Put(f, running, f.slots[running].(ssi := ssi, ns := 0, nr := 0)), running)
      else Allocated(f, ssi)
  }

  function Setup(f: Fsm, ssi: nat, cp: nat, group: bool, w: World): (r: (Fsm, int))
    requires Shape(f) && Supplies(w)
    ensures Shape(r.0)
  {
    var (g, i) := SetupSlot(f, ssi, cp, group);
    if i == MAX_CALLS then (g, -1)
    else
      var s := g.slots[i].(gssi := if group then cp else 0, issi := if group then 0 else cp, state := Connecting,
                           setupAt := w.clock[0], ceasedAt := 0);
      if group then (GroupSetup(Put(g, i, s), i, w), w.results[0])
      else (IndividualSetup(Put(g, i, s), i, w), if w.results[2] < 0 then w.results[2] else 0)
  }

  /** D-CONNECT at once; the sequencer sends the second one and D-SETUP. */
  function GroupSetup(f: Fsm, i: nat, w: World): (g: Fsm)
    requires Shape(f) && i < MAX_CALLS && Supplies(w)
    ensures Shape(g)
  {
    var g := Submit(f, DConnect, i, 0);
    var h := Put(g, i, g.slots[i].(stage := 1, next := Later(w.clock[1]), lastActivity := w.clock[2],
                                   state := Connected));
    Emit(WriteMask(h, VoiceMask(h.slots, w.clock[3], MAX_CALLS)), ClearFiller)
  }

  /** The called party rings; no channel before it answers. */
  function IndividualSetup(f: Fsm, i: nat, w: World): (g: Fsm)
    requires Shape(f) && i < MAX_CALLS && Supplies(w)
    ensures Shape(g)
  {
    var g := Submit(Submit(Submit(Emit(f, SlotGrant(f.slots[i].ssi)), DCallProceeding, i, 0), DAlert, i, 0), DSetup, i, 0);
    Put(g, i, g.slots[i].(state := Connecting, stage := 11, next := Later(w.clock[1]),
                          lastActivity := w.clock[2]))
  }

  function TxDemand(f: Fsm, ssi: nat, callId: nat, w: World): (r: (Fsm, int))
    requires Shape(f) && Supplies(w)
    ensures Shape(r.0)
  {
    var own, other := Find(f.slots, BySsi(ssi), 0), Find(f.slots, ByCallId(callId), 0);
    var i := if own < MAX_CALLS then own else other;
    if i == MAX_CALLS then (f, -1)
    else
      var s := if own < MAX_CALLS then f.slots[i] else f.slots[i].(ssi := ssi, ns := 0, nr := 0);
      (Granted(Put(f, i, s.(ns := Flip(s.ns))), i, w), w.results[0])
  }

  /** The floor goes to slot i. */
  function Granted(f: Fsm, i: nat, w: World): (g: Fsm)
    requires Shape(f) && i < MAX_CALLS && Supplies(w)
    ensures Shape(g)
  {
    var g := Submit(f, DTxGranted, i, 0);
    var h := Put(g, i, g.slots[i].(state := Talker, lastActivity := w.clock[0]));
    WriteMask(h, VoiceMask(h.slots, w.clock[1], MAX_CALLS))
  }

  function TxCeased(f: Fsm, ssi: nat, w: World): (r: (Fsm, int))
    requires Shape(f) && Supplies(w)
    ensures Shape(r.0)
  {
    var i := Find(f.slots, BySsi(ssi), 0);
    if i == MAX_CALLS then (f, -1)
    else
      var s, t := f.slots[i], w.clock[0];
      var g := Put(f, i, s.(state := Connected, ceasedAt := Orelse(s.ceasedAt, t), lastActivity := t));
      if Orelse(s.ceasedAt, t) == t
      then (Submit(Submit(Submit(g, DTxCeased, i, 0), DTxCeased, i, 0), DTxCeased, i, 0), w.results[2])
      else (Submit(g, DTxCeased, i, 0), w.results[0])
  }

  function Answer(f: Fsm, ssi: nat, callId: nat, w: World): (r: (Fsm, int))
    requires Shape(f) && Supplies(w)
    ensures Shape(r.0)
  {
    var own, other := Find(f.slots, BySsi(ssi), 0), Find(f.slots, ByCallId(callId), 0);
    var i := if own < MAX_CALLS then own else other;
    if i == MAX_CALLS then (f, -1)
    else
      (Answered(f, i, w), if w.results[0] < 0 then w.results[0] else w.results[1])
  }

  /** Both parties of slot i are connected. */
  function Answered(f: Fsm, i: nat, w: World): (g: Fsm)
    requires Shape(f) && i < MAX_CALLS && Supplies(w)
    ensures Shape(g)
  {
    var g := Submit(Submit(f, DConnect, i, 0), DConnectAck, i, 0);
    var h := Put(g, i, g.slots[i].(state := Connected, stage := 0, lastActivity := w.clock[0]));
    Emit(WriteMask(h, VoiceMask(h.slots, w.clock[1], MAX_CALLS)), ClearFiller)
  }

  function Release(f: Fsm, ssi: nat, cause: nat, w: World): (r: (Fsm, int))
    requires Shape(f) && Supplies(w)
    ensures Shape(r.0)
  {
    var i := Find(f.slots, BySsi(ssi), 0);
    if i == MAX_CALLS then (f, -1)
    else
      var s := f.slots[i];
      (Ended(Put(f, i, s.(ns := Flip(s.ns))), i, cause, w), w.results[0])
  }

  /** D-RELEASE for slot i, which becomes empty. */
  function Ended(f: Fsm, i: nat, cause: nat, w: World): (g: Fsm)
    requires Shape(f) && i < MAX_CALLS && Supplies(w)
    ensures Shape(g)
  {
    var g := Freed(Submit(f, DRelease, i, cause), i);
    var h := WriteMask(g, VoiceMask(g.slots, w.clock[0], MAX_CALLS));
    if VoiceMask(g.slots, w.clock[1], MAX_CALLS) == {} then Emit(h, ClearFiller) else h
  }

  /** One uplink PDU from ssi. */
  function Handled(f: Fsm, ssi: nat, p: Uplink, w: World): (r: (Fsm, int))
    requires Shape(f) && Supplies(w)
    ensures Shape(r.0)
  {
    if ssi == 0 then (f, -2) else
    match p
    case USetup(calledType, calledSsi, ct) =>
      var cp := CalledSsi(calledType, calledSsi);
      Setup(f, ssi, cp, IsGroupCall(cp, ct, w.groups), w)
    case UTxDemand(callId) => TxDemand(f, ssi, callId, w)
    case UTxCeased => TxCeased(f, ssi, w)
    case UConnect(callId) => Answer(f, ssi, callId, w)
    case UAlert(callId) =>
      (f, if Find(f.slots, BySsi(ssi), 0) < MAX_CALLS || Find(f.slots, ByCallId(callId), 0) < MAX_CALLS then 0 else -1)
    case URelease(cause) => Release(f, ssi, cause, w)
    case UDisconnect(cause) => Release(f, ssi, cause, w)
    case Other => (f, -2)
  }

  // ---- Watchdog tick ----

  /** An uplink voice burst heard in timeslot ts at time ms. */
  datatype Burst = NoBurst | Heard(ts: nat, ms: nat)

  function Refreshed(f: Fsm, b: Burst): (g: Fsm)
    requires Shape(f)
    ensures Shape(g)
  {
    match b
    case NoBurst => f
    case Heard(ts, ms) =>
      var i := Find(f.slots, ByTs(ts), 0);
      if 1 <= ts <= 4 && i < MAX_CALLS then Put(f, i, f.slots[i].(lastActivity := ms)) else f
  }

  /** The set-up sequencer for slot i. */
  function Sequenced(f: Fsm, i: nat, now: nat): (g: Fsm)
    requires Shape(f) && i < MAX_CALLS
    ensures Shape(g)
  {
    var s := f.slots[i];
    if s.stage > 0 && Due(s.next, now) then
      if s.stage == 1 then
        Put(Submit(f, DConnect, i, 0), i, s.(stage := 2, next := Later(now)))
      else if s.stage == 2 then
        Put(if s.gssi != 0 || s.issi != 0 then Submit(f, DSetup, i, 0) else f, i, s.(stage := 0))
      else if s.stage == 11 then
        Put(Submit(f, DSetup, i, 0), i, s.(stage := 0))
      else f
    else f
  }

  /** Whether the watchdog takes the slot away. */
  predicate Expired(s: Slot, now: nat) {
    if s.state == Connecting then Age(s.setupAt, now) > ALERT_TIMEOUT_MS
    else s.state != Idle && Age(s.lastActivity, now) > CALL_STALE_MS
  }

  function ClearBank(f: Fsm, ts: nat): Fsm {
    if 1 <= ts <= 4 then Emit(f, ClearFillerTs(ts)) else f
  }

  function Turn(f: Fsm, i: nat, now: nat, b: Burst): (g: Fsm)
    requires Shape(f) && i < MAX_CALLS
    ensures Shape(g)
  {
    if f.slots[i].ssi == 0 then f
    else
      var g := Sequenced(f, i, now);
      var s := g.slots[i];
      if s.state == Connecting then
        if Expired(s, now) then Freed(Submit(g, DRelease, i, 0), i) else g
      else if Expired(s, now) then Freed(ClearBank(g, s.ts), i)
      else
        var h := if Age(s.lastActivity, now) > VOICE_QUIET_MS then ClearBank(g, s.ts) else g;
        if s.gssi != 0 || s.issi != 0 then Refreshed(h, b) else h
  }

  /** The first n turns of a tick. */
  function Turns(f: Fsm, now: nat, bursts: seq<Burst>, n: nat): (g: Fsm)
    requires Shape(f) && n <= MAX_CALLS == |bursts|
    ensures Shape(g)
  {
    if n == 0 then f else Turn(Turns(f, now, bursts, n - 1), n - 1, now, bursts[n - 1])
  }

  /** A tick that starts at time now and computes the mask at time later. */
  function Ticked(f: Fsm, now: nat, bursts: seq<Burst>, later: nat): (g: Fsm)
    requires Shape(f) && |bursts| == MAX_CALLS
    ensures Shape(g)
  {
    var g := Turns(f, now, bursts, MAX_CALLS);
    WriteMask(g, VoiceMask(g.slots, later, MAX_CALLS))
  }

  // ---- Late entry ----

  predicate JoinsLate(s: Slot, gssi: nat) {
    s.ssi != 0 && s.gssi == gssi && (s.state == Connected || s.state == Talker)
  }

  /** The slots among the first n that serve a group's running calls. */
  ghost function JoiningLate(slots: seq<Slot>, gssi: nat, n: nat): set<nat>
    requires n <= |slots|
  {
    set i: nat | i < n && gssi != 0 && JoinsLate(slots[i], gssi)
  }

  lemma JoiningLateNext(slots: seq<Slot>, gssi: nat, i: nat, n: nat)
    requires n == i + 1 <= |slots|
    ensures |JoiningLate(slots, gssi, n)|
            == |JoiningLate(slots, gssi, i)| + if gssi != 0 && JoinsLate(slots[i], gssi) then 1 else 0
  {
    var more: set<nat> := if gssi != 0 && JoinsLate(slots[i], gssi) then {i} else {};
    assert JoiningLate(slots, gssi, n) == JoiningLate(slots, gssi, i) + more;
  }

  /** D-SETUP again for the running calls of a group among the first n slots. */
  function Announced(f: Fsm, gssi: nat, n: nat): (g: Fsm)
    requires Shape(f) && n <= MAX_CALLS
    ensures Shape(g) && g == f.(log := g.log)
  {
    if n == 0 then f
    else
      var g := Announced(f, gssi, n - 1);
      if JoinsLate(g.slots[n - 1], gssi) then Submit(g, DSetup, n - 1, 0) else g
  }

  function LateEntry(f: Fsm, gssi: nat): (g: Fsm)
    requires Shape(f)
    ensures Shape(g)
  {
    if gssi == 0 then f else Announced(f, gssi, MAX_CALLS)
  }
}
