/** The daemon's delivery of a long SDS: SCH/F coding, pacing, and the shared mask register. */
module SdsSender {
  import opened Wrappers
  import opened BitSeq
  import opened Scrambler
  import opened ChannelCodec
  import opened ControlChannels
  import opened Registers
  import opened SdsModel

  ghost function SchfBlock(info: seq<bool>, init: bv32): (b: Block)
    requires |info| == SCHF_INFO_BITS
    ensures |b| == SCHF_CODED_BITS
  {
    InterleaversAreCoprime();
    Transmitted(info, SCHF_GROUPS, SCHF_A, init)
  }

  ghost function Encoded(infos: seq<seq<bool>>, init: bv32): (b: seq<Block>)
    requires forall k :: 0 <= k < |infos| ==> |infos[k]| == SCHF_INFO_BITS
    ensures |b| == |infos|
  {
    seq(|infos|, k requires 0 <= k < |infos| => SchfBlock(infos[k], init))
  }

  class Sender {
    const mask: Register
    var active: bool
    var dest: nat
    var idx: nat
    var lastFn: nat
    var type5: seq<Block>
    var filler: Option<Block>
    ghost var pushed: seq<Push>
    ghost var grants: seq<nat>
    ghost var chains: seq<Chain>

    ghost function View(): Air
      reads this, mask
    {
      Air(Delivery(active, dest, type5, idx, lastFn), mask.bits, Log(pushed, filler, grants, chains))
    }

    constructor (mask: Register)
      ensures this.mask == mask && View() == Air(NO_DELIVERY, mask.bits, NOTHING_SENT)
    {
      this.mask := mask;
      active, dest, idx, lastFn, type5 := false, 0, 0, 0, [];
      filler, pushed, grants, chains := None, [], [], [];
    }

    /** Starts the chain of the given blocks' information bits, seen first in frame fn. */
    method DeliveryStart(to: nat, infos: seq<seq<bool>>, colourCode: bv8, mcc: bv16, mnc: bv16, fn: nat)
      requires forall k :: 0 <= k < |infos| ==> |infos[k]| == SCHF_INFO_BITS
      modifies this
      ensures View() == Started(old(View()), to, Encoded(infos, CellInit(mcc, mnc, colourCode)), fn)
    {
      if active || |infos| == 0 {
        return;
      }
      type5 := EncodeAll(infos, colourCode, mcc, mnc);
      dest := to % 0x100_0000;
      idx := 0;
      active := true;
      lastFn := fn;
      chains := chains + [Chain(dest, type5)];
    }

    method EncodeAll(infos: seq<seq<bool>>, colourCode: bv8, mcc: bv16, mnc: bv16) returns (coded: seq<Block>)
      requires forall k :: 0 <= k < |infos| ==> |infos[k]| == SCHF_INFO_BITS
      ensures coded == Encoded(infos, CellInit(mcc, mnc, colourCode))
    {
      coded := [];
      ghost var all := Encoded(infos, CellInit(mcc, mnc, colourCode));
      for i := 0 to |infos|
        invariant coded == all[..i]
      {
        var block := EncodeFragment(infos[i], colourCode, mcc, mnc);
        assert block == all[i] && all[..i + 1] == all[..i] + [block];
        coded := coded + [block];
      }
    }

    method EncodeFragment(info: seq<bool>, colourCode: bv8, mcc: bv16, mnc: bv16) returns (block: Block)
      requires |info| == SCHF_INFO_BITS
      ensures block == SchfBlock(info, CellInit(mcc, mnc, colourCode))
    {
      var out := new bool[SCHF_CODED_BITS];
      var rc := SchfEncode(info, colourCode, 1, mcc, mnc, out);
      block := out[..];
    }

    /** Once per main loop: fn is the frame number read from the register. */
    method Service(fn: nat)
      modifies this, mask
      ensures View() == Serviced(old(View()), fn)
    {
      if !active || fn == lastFn {
        return;
      }
      lastFn := fn;
      if idx < |type5| {
        var win := 16 - |type5|;
        if idx == 0 && win >= 0 && fn > win {
          return;
        }
        if fn == CONTROL_FRAME {
          return;
        }
        filler := Some(type5[idx]);
        pushed := pushed + [Push(fn, type5[idx])];
        var m := mask.bits;
        m := m + {FILL_ACTIVE};
        if idx == |type5| - 1 {
          m := m + {FILL_LAST};
        } else {
          m := m - {FILL_LAST};
        }
        mask.bits := m;
        idx := idx + 1;
      } else {
        var m := mask.bits;
        mask.bits := m - {FILL_ACTIVE, FILL_LAST};
        filler := None;
        active := false;
        grants := grants + [dest];
      }
    }
  }

  lemma FragmentDecodes(info: seq<bool>, init: bv32, heard: Block)
    requires |info| == SCHF_INFO_BITS && |heard| == SCHF_CODED_BITS && Distance(heard, SchfBlock(info, init)) <= 1
    ensures Received(heard, SCHF_GROUPS, SCHF_A, init) == Message(info)
  {
    InterleaversAreCoprime();
    OneFlipIsCorrected(info, SCHF_GROUPS, SCHF_A, init, heard);
  }

  /** Each block is heard with at most one wrong bit. */
  ghost predicate HeardWell(air: seq<Push>, heard: seq<Block>) {
    |heard| == |air| && forall k :: 0 <= k < |air| ==> HeardBlock(air[k].block, heard[k])
  }

  predicate HeardBlock(sent: Block, heard: Block) {
    |heard| == |sent| == SCHF_CODED_BITS && Distance(heard, sent) <= 1
  }

  /**
   * When every frame is seen and a receiver hears each block of the chain with at most one wrong
   * bit, it recovers every fragment, in order.
   */
  lemma FragmentsArrive(infos: seq<seq<bool>>, init: bv32, a: Air, air: seq<Push>, heard: seq<Block>)
    requires forall k :: 0 <= k < |infos| ==> |infos[k]| == SCHF_INFO_BITS
    requires PutsOnAir(a, air) && a.delivery.blocks == Encoded(infos, init) && HeardWell(air, heard)
    ensures |heard| == |infos|
    ensures forall k :: 0 <= k < |infos| ==> Received(heard[k], SCHF_GROUPS, SCHF_A, init) == Message(infos[k])
  {
    ChainOnAir(a, air);
    EachDecodes(infos, init, air, heard);
  }

  lemma EachDecodes(infos: seq<seq<bool>>, init: bv32, air: seq<Push>, heard: seq<Block>)
    requires forall k :: 0 <= k < |infos| ==> |infos[k]| == SCHF_INFO_BITS
    requires Blocks(air) == Encoded(infos, init) && HeardWell(air, heard)
    ensures |heard| == |infos|
    ensures forall k :: 0 <= k < |infos| ==> Received(heard[k], SCHF_GROUPS, SCHF_A, init) == Message(infos[k])
  {
    forall k | 0 <= k < |infos|
      ensures Received(heard[k], SCHF_GROUPS, SCHF_A, init) == Message(infos[k])
    {
      assert Blocks(air)[k] == SchfBlock(infos[k], init) && HeardBlock(air[k].block, heard[k]);
      FragmentDecodes(infos[k], init, heard[k]);
    }
  }
}
