/** Call control and SDS delivery side by side: two writers of one mask register. */
module CellModel {
  import opened CallModel
  import opened CallInvariant
  import Runs = CallRuns
  import opened SdsModel

  datatype Cell = Cell(fsm: Fsm, delivery: Delivery, log: Log)

  datatype CellStep =
    | CallStep(step: Runs.Step)
    | StartDelivery(dest: nat, blocks: seq<Block>, fn: nat)
    | ServiceDelivery(fn: nat)

  predicate CellStepOk(step: CellStep) {
    step.CallStep? ==> Runs.StepOk(step.step)
  }

  /** What delivery sees of the cell. */
  function AirOf(c: Cell): Air {
    Air(c.delivery, c.fsm.mask, c.log)
  }

  function WithAir(c: Cell, a: Air): Cell {
    Cell(c.fsm.(mask := a.mask), a.delivery, a.log)
  }

  function CellNext(c: Cell, step: CellStep): (d: Cell)
    requires Shape(c.fsm) && CellStepOk(step)
    ensures Shape(d.fsm)
  {
    match step
    case CallStep(s) => c.(fsm := Runs.Next(c.fsm, s))
    case StartDelivery(dest, blocks, fn) => WithAir(c, Started(AirOf(c), dest, blocks, fn))
    case ServiceDelivery(fn) => WithAir(c, Serviced(AirOf(c), fn))
  }

  function CellRun(c: Cell, steps: seq<CellStep>): (d: Cell)
    requires Shape(c.fsm) && forall k :: 0 <= k < |steps| ==> CellStepOk(steps[k])
    ensures Shape(d.fsm)
    decreases |steps|
  {
    if |steps| == 0 then c else CellRun(CellNext(c, steps[0]), steps[1..])
  }

  function CellStart(): Cell {
    Cell(CallModel.Start(), NO_DELIVERY, NOTHING_SENT)
  }

  /** The delivery's bits are set only while it runs, the last-block bit only after the last push. */
  predicate DeliveryBits(mask: set<nat>, d: Delivery) {
    && (d.active ==> d.blocks != [] && d.idx <= |d.blocks|)
    && (FILL_ACTIVE in mask ==> d.active && d.idx > 0)
    && (FILL_LAST in mask ==> d.active && d.idx == |d.blocks|)
  }

  predicate CellInv(c: Cell) {
    Inv(c.fsm) && DeliveryBits(c.fsm.mask, c.delivery) && InOrder(AirOf(c))
  }

  // ---- The mask register under call-control steps ----

  /** The register is left alone, or overwritten with low bits only when the cached value changes. */
  predicate MaskStep(f: Fsm, g: Fsm) {
    if g.cached == f.cached then g.mask == f.mask else g.mask == g.cached && g.cached <= LOW_BITS
  }

  lemma {:induction false} VoiceMaskLow(slots: seq<Slot>, now: nat, n: nat)
    requires n <= |slots|
    ensures VoiceMask(slots, now, n) <= LOW_BITS
  {
    if n > 0 {
      VoiceMaskLow(slots, now, n - 1);
    }
  }

  lemma WriteStep(f: Fsm, g: Fsm, slots: seq<Slot>, now: nat)
    requires |slots| == MAX_CALLS && g.cached == f.cached && g.mask == f.mask
    ensures MaskStep(f, WriteMask(g, VoiceMask(slots, now, MAX_CALLS)))
  {
    VoiceMaskLow(slots, now, MAX_CALLS);
  }

  lemma SetupStep(f: Fsm, ssi: nat, cp: nat, group: bool, w: World)
    requires Shape(f) && Supplies(w)
    ensures MaskStep(f, Setup(f, ssi, cp, group, w).0)
  {
    var (g, i) := SetupSlot(f, ssi, cp, group);
    assert g.cached == f.cached && g.mask == f.mask;
    if i < MAX_CALLS && group {
      var s := g.slots[i].(gssi := cp, issi := 0, state := Connecting, setupAt := w.clock[0], ceasedAt := 0);
      var h := Put(Submit(Put(g, i, s), DConnect, i, 0), i, Grouped(s, w));
      WriteStep(f, h, h.slots, w.clock[3]);
    }
  }

  lemma GrantedStep(f: Fsm, i: nat, w: World)
    requires Shape(f) && i < MAX_CALLS && Supplies(w)
    ensures MaskStep(f, Granted(f, i, w))
  {
    var g := Submit(f, DTxGranted, i, 0);
    var h := Put(g, i, g.slots[i].(state := Talker, lastActivity := w.clock[0]));
    WriteStep(f, h, h.slots, w.clock[1]);
  }

  lemma AnsweredStep(f: Fsm, i: nat, w: World)
    requires Shape(f) && i < MAX_CALLS && Supplies(w)
    ensures MaskStep(f, Answered(f, i, w))
  {
    var g := Submit(Submit(f, DConnect, i, 0), DConnectAck, i, 0);
    var h := Put(g, i, g.slots[i].(state := Connected, stage := 0, lastActivity := w.clock[0]));
    WriteStep(f, h, h.slots, w.clock[1]);
  }

  lemma EndedStep(f: Fsm, i: nat, cause: nat, w: World)
    requires Shape(f) && i < MAX_CALLS && Supplies(w)
    ensures MaskStep(f, Ended(f, i, cause, w))
  {
    var g := Freed(Submit(f, DRelease, i, cause), i);
    WriteStep(f, g, g.slots, w.clock[0]);
  }

  lemma HandledStep(f: Fsm, ssi: nat, p: Uplink, w: World)
    requires Shape(f) && Supplies(w)
    ensures MaskStep(f, Handled(f, ssi, p, w).0)
  {
    if ssi != 0 {
      match p
      case USetup(calledType, calledSsi, ct) =>
        var cp := CalledSsi(calledType, calledSsi);
        SetupStep(f, ssi, cp, IsGroupCall(cp, ct, w.groups), w);
      case UTxDemand(callId) =>
        var own, other := Find(f.slots, BySsi(ssi), 0), Find(f.slots, ByCallId(callId), 0);
        var i := if own < MAX_CALLS then own else other;
        if i < MAX_CALLS {
          var s := if own < MAX_CALLS then f.slots[i] else f.slots[i].(ssi := ssi, ns := 0, nr := 0);
          GrantedStep(Put(f, i, s.(ns := Flip(s.ns))), i, w);
        }
      case UConnect(callId) =>
        var own, other := Find(f.slots, BySsi(ssi), 0), Find(f.slots, ByCallId(callId), 0);
        var i := if own < MAX_CALLS then own else other;
        if i < MAX_CALLS {
          AnsweredStep(f, i, w);
        }
      case URelease(cause) => ReleaseStep(f, ssi, cause, w);
      case UDisconnect(cause) => ReleaseStep(f, ssi, cause, w);
      case UTxCeased =>
      case UAlert(_) =>
      case Other =>
    }
  }

  lemma ReleaseStep(f: Fsm, ssi: nat, cause: nat, w: World)
    requires Shape(f) && Supplies(w)
    ensures MaskStep(f, Release(f, ssi, cause, w).0)
  {
    var i := Find(f.slots, BySsi(ssi), 0);
    if i < MAX_CALLS {
      EndedStep(Put(f, i, f.slots[i].(ns := Flip(f.slots[i].ns))), i, cause, w);
    }
  }

  lemma CallMaskStep(f: Fsm, step: Runs.Step)
    requires Shape(f) && Runs.StepOk(step)
    ensures MaskStep(f, Runs.Next(f, step))
  {
    match step
    case Uplinked(ssi, p, w) => HandledStep(f, ssi, p, w);
    case Tick(now, bursts, later) =>
      Runs.TurnsLeaveMask(f, now, bursts, MAX_CALLS);
      var g := Turns(f, now, bursts, MAX_CALLS);
      WriteStep(f, g, g.slots, later);
    case Voice(_) =>
    case Late(_) =>
  }

  // ---- Both writers ----

  lemma DeliveryLeavesLowBits(c: Cell, fn: nat)
    requires Shape(c.fsm)
    ensures CellNext(c, ServiceDelivery(fn)).fsm == c.fsm.(mask := CellNext(c, ServiceDelivery(fn)).fsm.mask)
    ensures CellNext(c, ServiceDelivery(fn)).fsm.mask * LOW_BITS == c.fsm.mask * LOW_BITS
  {
  }

  /** The order on the air does not depend on the mask. */
  lemma OrderIgnoresMask(c: Cell, d: Cell)
    requires d.delivery == c.delivery && d.log == c.log && InOrder(AirOf(c))
    ensures InOrder(AirOf(d))
  {
    assert AirOf(d) == AirOf(c).(mask := d.fsm.mask);
    assert Finished(AirOf(d)) == Finished(AirOf(c));
  }

  lemma CallStepKeeps(c: Cell, s: Runs.Step)
    requires CellInv(c) && Runs.StepOk(s)
    ensures CellInv(c.(fsm := Runs.Next(c.fsm, s)))
  {
    Runs.NextKeeps(c.fsm, s);
    CallMaskStep(c.fsm, s);
    OrderIgnoresMask(c, c.(fsm := Runs.Next(c.fsm, s)));
  }

  lemma StartKeeps(c: Cell, dest: nat, blocks: seq<Block>, fn: nat)
    requires CellInv(c)
    ensures CellInv(WithAir(c, Started(AirOf(c), dest, blocks, fn)))
  {
    StartedInOrder(AirOf(c), dest, blocks, fn);
    AirBack(c, Started(AirOf(c), dest, blocks, fn));
  }

  lemma AirBack(c: Cell, a: Air)
    ensures AirOf(WithAir(c, a)) == a
  {
  }

  lemma ServiceKeeps(c: Cell, fn: nat)
    requires CellInv(c)
    ensures CellInv(WithAir(c, Serviced(AirOf(c), fn)))
  {
    ServicedInOrder(AirOf(c), fn);
    AirBack(c, Serviced(AirOf(c), fn));
    ServedBits(c, fn);
    InvIgnoresHighBits(c.fsm, Serviced(AirOf(c), fn).mask);
  }

  lemma ServedBits(c: Cell, fn: nat)
    requires DeliveryBits(c.fsm.mask, c.delivery)
    ensures var b := Serviced(AirOf(c), fn);
            DeliveryBits(b.mask, b.delivery) && b.mask * LOW_BITS == c.fsm.mask * LOW_BITS
  {
  }

  lemma InvIgnoresHighBits(f: Fsm, mask: set<nat>)
    requires Inv(f) && mask * LOW_BITS == f.mask * LOW_BITS
    ensures Inv(f.(mask := mask))
  {
  }

  lemma CellNextKeeps(c: Cell, step: CellStep)
    requires CellInv(c) && CellStepOk(step)
    ensures CellInv(CellNext(c, step))
  {
    match step
    case CallStep(s) => CallStepKeeps(c, s);
    case StartDelivery(dest, blocks, fn) => StartKeeps(c, dest, blocks, fn);
    case ServiceDelivery(fn) => ServiceKeeps(c, fn);
  }

  /**
   * Under every interleaving of call-control and delivery steps the register's low four bits equal
   * the cache once it is written, and the delivery's bits are clear whenever no delivery runs.
   */
  lemma {:induction false} CellRunKeeps(c: Cell, steps: seq<CellStep>)
    requires CellInv(c) && forall k :: 0 <= k < |steps| ==> CellStepOk(steps[k])
    ensures var d := CellRun(c, steps);
            && CellInv(d)
            && (d.fsm.cached != ALL_BITS ==> d.fsm.mask * LOW_BITS == d.fsm.cached)
            && (!d.delivery.active ==> FILL_ACTIVE !in d.fsm.mask && FILL_LAST !in d.fsm.mask)
    decreases |steps|
  {
    if |steps| > 0 {
      CellNextKeeps(c, steps[0]);
      CellRunKeeps(CellNext(c, steps[0]), steps[1..]);
    }
  }

  lemma CellStartHolds()
    ensures CellInv(CellStart())
  {
    StartHolds();
  }

  /** Delivery steps between two ticks leave the low bits of the first one in place. */
  lemma {:induction false} MaskSurvivesDelivery(c: Cell, fns: seq<nat>)
    requires Shape(c.fsm)
    ensures var steps: seq<CellStep> := seq(|fns|, k requires 0 <= k < |fns| => ServiceDelivery(fns[k]));
            CellRun(c, steps).fsm.mask * LOW_BITS == c.fsm.mask * LOW_BITS
    decreases |fns|
  {
    var steps: seq<CellStep> := seq(|fns|, k requires 0 <= k < |fns| => ServiceDelivery(fns[k]));
    if |fns| > 0 {
      DeliveryLeavesLowBits(c, fns[0]);
      MaskSurvivesDelivery(CellNext(c, steps[0]), fns[1..]);
      assert steps[1..] == seq(|fns| - 1, k requires 0 <= k < |fns| - 1 => ServiceDelivery(fns[1..][k]));
    }
  }

  /** Over any number of delivery steps and starts the filler stays shown while blocks are on the air. */
  lemma {:induction false} FillerSurvivesDelivery(c: Cell, steps: seq<CellStep>)
    requires Shape(c.fsm) && FillerShown(AirOf(c)) && forall k :: 0 <= k < |steps| ==> !steps[k].CallStep?
    ensures FillerShown(AirOf(CellRun(c, steps)))
    decreases |steps|
  {
    if |steps| > 0 {
      if steps[0].ServiceDelivery? {
        FillerStays(AirOf(c), steps[0].fn);
      }
      FillerSurvivesDelivery(CellNext(c, steps[0]), steps[1..]);
    }
  }

  /**
   * A call-control step keeps the filler shown if and only if it leaves the mask value as it is:
   * the cached write replaces the whole register, bits 4 and 8 included, until the next push.
   */
  lemma CallStepAndFiller(c: Cell, step: Runs.Step)
    requires CellInv(c) && Runs.StepOk(step) && FillerShown(AirOf(c)) && c.delivery.active && c.delivery.idx > 0
    ensures var d := CellNext(c, CallStep(step));
            && (FillerShown(AirOf(d)) <==> d.fsm.cached == c.fsm.cached)
            && (d.fsm.cached != c.fsm.cached ==> 4 !in d.fsm.mask && 8 !in d.fsm.mask)
  {
    CallMaskStep(c.fsm, step);
  }

  /** A chain of two blocks and a tick between them, whose mask write clears the filler bit. */
  lemma TickHidesFiller(b: Block, b': Block)
    ensures var c := CellNext(CellNext(CellStart(), StartDelivery(1, [b, b'], 0)), ServiceDelivery(1));
            var d := CellNext(c, CallStep(Runs.Tick(0, seq(MAX_CALLS, _ => NoBurst), 0)));
            && FillerShown(AirOf(c)) && c.delivery.active && c.delivery.idx == 1 && !FillerShown(AirOf(d))
  {
    var quiet := seq(MAX_CALLS, _ => NoBurst);
    var c := CellNext(CellNext(CellStart(), StartDelivery(1, [b, b'], 0)), ServiceDelivery(1));
    FirstPush(b, b');
    FirstWrite(c.fsm, quiet);
  }

  lemma FirstPush(b: Block, b': Block)
    ensures var c := CellNext(CellNext(CellStart(), StartDelivery(1, [b, b'], 0)), ServiceDelivery(1));
            FillerShown(AirOf(c)) && c.delivery.active && c.delivery.idx == 1 && c.fsm.cached == ALL_BITS
  {
  }

  lemma FirstWrite(f: Fsm, quiet: seq<Burst>)
    requires Shape(f) && f.cached == ALL_BITS && |quiet| == MAX_CALLS
    ensures 4 !in Ticked(f, 0, quiet, 0).mask
  {
    Runs.TurnsLeaveMask(f, 0, quiet, MAX_CALLS);
    var g := Turns(f, 0, quiet, MAX_CALLS);
    VoiceMaskLow(g.slots, 0, MAX_CALLS);
    assert 31 in ALL_BITS && 31 !in VoiceMask(g.slots, 0, MAX_CALLS);
  }

  // ---- Chains over whole runs ----

  /** The chains whose start a run accepts, in order. */
  function AcceptedChains(c: Cell, steps: seq<CellStep>): (chains: seq<Chain>)
    requires Shape(c.fsm) && forall k :: 0 <= k < |steps| ==> CellStepOk(steps[k])
    decreases |steps|
  {
    if |steps| == 0 then []
    else AcceptedChain(c.delivery, steps[0]) + AcceptedChains(CellNext(c, steps[0]), steps[1..])
  }

  function AcceptedChain(d: Delivery, step: CellStep): (chains: seq<Chain>) {
    match step
    case StartDelivery(dest, blocks, _) => if Accepted(d, blocks) then [Chain(dest % 0x100_0000, blocks)] else []
    case _ => []
  }

  lemma ChainsOfStep(c: Cell, step: CellStep)
    requires Shape(c.fsm) && CellStepOk(step)
    ensures CellNext(c, step).log.chains == c.log.chains + AcceptedChain(c.delivery, step)
  {
  }

  lemma {:induction false} ChainsOfRun(c: Cell, steps: seq<CellStep>)
    requires Shape(c.fsm) && forall k :: 0 <= k < |steps| ==> CellStepOk(steps[k])
    ensures CellRun(c, steps).log.chains == c.log.chains + AcceptedChains(c, steps)
    decreases |steps|
  {
    if |steps| > 0 {
      ChainsOfStep(c, steps[0]);
      ChainsOfRun(CellNext(c, steps[0]), steps[1..]);
    }
  }

  /**
   * After every run from the start, call-control steps and refused starts in between included, the
   * blocks on the air are those of the accepted chains in order, each once and the running one as
   * far as it got; none went out in the control frame, and exactly the mobiles of the finished
   * chains were granted a slot.
   */
  lemma ChainsGoOutInOrder(steps: seq<CellStep>)
    requires forall k :: 0 <= k < |steps| ==> CellStepOk(steps[k])
    ensures var d := CellRun(CellStart(), steps);
            var chains := AcceptedChains(CellStart(), steps);
            var finished := if d.delivery.active && chains != [] then chains[..|chains| - 1] else chains;
            && NeverInControlFrame(d.log.pushed)
            && (d.delivery.active ==>
                  chains != [] && chains[|chains| - 1] == Chain(d.delivery.dest, d.delivery.blocks)
                  && d.delivery.idx <= |d.delivery.blocks| && Begun(d.delivery) == d.delivery.blocks[..d.delivery.idx])
            && Blocks(d.log.pushed) == AllBlocks(finished) + Begun(d.delivery)
            && d.log.grants == Destinations(finished)
  {
    CellStartHolds();
    CellRunKeeps(CellStart(), steps);
    ChainsOfRun(CellStart(), steps);
    var d := CellRun(CellStart(), steps);
    assert d.log.chains == AcceptedChains(CellStart(), steps);
    assert InOrder(AirOf(d));
  }
}
