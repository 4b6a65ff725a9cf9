/** The two writers in one process, sharing one mask register. */
module Daemon {
  import opened CallModel
  import opened CallControl
  import opened CallInvariant
  import opened CellModel
  import opened Registers
  import opened Scrambler
  import opened ControlChannels
  import opened SdsModel
  import opened SdsSender
  import Runs = CallRuns

  class Cells {
    const mask: Register
    const calls: CallFsm
    const sds: Sender

    ghost predicate Valid()
      reads this, calls
    {
      calls.Valid() && calls.mask == mask && sds.mask == mask
    }

    ghost function View(): Cell
      reads this, calls, calls.slots, calls.aach, calls.mask, sds, sds.mask
    {
      Cell(calls.View(), sds.View().delivery, sds.View().log)
    }

    constructor ()
      ensures Valid() && View() == CellStart() && CellInv(View())
    {
      var m := new Register();
      mask := m;
      calls := new CallFsm(m);
      sds := new Sender(m);
      CellStartHolds();
    }

    method CallControlStep(step: Runs.Step)
      requires Valid() && Runs.StepOk(step)
      modifies calls, calls.slots, calls.aach, mask
      ensures Valid() && View() == CellNext(old(View()), CallStep(step))
      ensures old(CellInv(View())) ==> CellInv(View())
    {
      if CellInv(View()) {
        CellNextKeeps(View(), CallStep(step));
      }
      match step {
        case Uplinked(ssi, p, w) => var rc := calls.Handle(ssi, p, w);
        case Tick(now, bursts, later) => calls.RunTick(now, bursts, later);
        case Voice(b) => calls.NotifyUlBurst(b);
        case Late(gssi) => var n := calls.NotifyLateEntry(gssi);
      }
    }

    method Deliver(dest: nat, infos: seq<seq<bool>>, colourCode: bv8, mcc: bv16, mnc: bv16, fn: nat)
      requires Valid() && forall k :: 0 <= k < |infos| ==> |infos[k]| == SCHF_INFO_BITS
      modifies sds
      ensures Valid()
      ensures View() == CellNext(old(View()), StartDelivery(dest, Encoded(infos, CellInit(mcc, mnc, colourCode)), fn))
      ensures old(CellInv(View())) ==> CellInv(View())
    {
      if CellInv(View()) {
        CellNextKeeps(View(), StartDelivery(dest, Encoded(infos, CellInit(mcc, mnc, colourCode)), fn));
      }
      sds.DeliveryStart(dest, infos, colourCode, mcc, mnc, fn);
    }

    method ServiceSds(fn: nat)
      requires Valid()
      modifies sds, mask
      ensures Valid() && View() == CellNext(old(View()), ServiceDelivery(fn))
      ensures old(CellInv(View())) ==> CellInv(View())
    {
      if CellInv(View()) {
        CellNextKeeps(View(), ServiceDelivery(fn));
      }
      sds.Service(fn);
    }
  }
}
