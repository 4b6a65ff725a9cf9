/**
 * Downlink delivery of a long SDS: a chain of SCH/F blocks, one per air frame, pushed through the
 * voice filler of timeslot 1. Frame numbers run from 0 to 17; frame 17 carries no traffic.
 */
module SdsModel {

  import opened Wrappers

  const FRAMES: nat := 18
  const CONTROL_FRAME: nat := 17
  const FILL_ACTIVE: nat := 4
  const FILL_LAST: nat := 8

  type Block = seq<bool>

  /** A chain of blocks for a mobile; idx of them are pushed, and lastFn is the frame seen last. */
  datatype Delivery = Delivery(active: bool, dest: nat, blocks: seq<Block>, idx: nat, lastFn: nat)

  /** A block on the air. */
  datatype Push = Push(fn: nat, block: Block)

  /** The blocks for one mobile. */
  datatype Chain = Chain(dest: nat, blocks: seq<Block>)

  /**
   * Everything pushed so far, the filler of timeslot 1, the mobiles granted a slot for their
   * report, and the chains accepted.
   */
  datatype Log = Log(pushed: seq<Push>, filler: Option<Block>, grants: seq<nat>, chains: seq<Chain>)

  /** The delivery, the mask register's set bits, and what happened so far. */
  datatype Air = Air(delivery: Delivery, mask: set<nat>, log: Log)

  const NO_DELIVERY := Delivery(false, 0, [], 0, 0)
  const NOTHING_SENT := Log([], None, [], [])

  /** A chain is refused while another one runs. */
  predicate Accepted(d: Delivery, blocks: seq<Block>) {
    !d.active && blocks != []
  }

  function Started(a: Air, dest: nat, blocks: seq<Block>, fn: nat): Air {
    if !Accepted(a.delivery, blocks) then a
    else
      var to := dest % 0x100_0000;
      Air(Delivery(true, to, blocks, 0, fn), a.mask, a.log.(chains := a.log.chains + [Chain(to, blocks)]))
  }

  /** The chain must not start later than this frame: 16 less its length. */
  predicate OutsideWindow(d: Delivery, fn: nat) {
    d.idx == 0 && |d.blocks| <= 16 && fn + |d.blocks| > 16
  }

  /** Once per main loop, with the current frame number. */
  function Serviced(a: Air, fn: nat): (b: Air) {
    var d := a.delivery;
    if !d.active || fn == d.lastFn then a
    else
      var e := d.(lastFn := fn);
      if d.idx < |d.blocks| then
        if OutsideWindow(d, fn) || fn == CONTROL_FRAME then a.(delivery := e)
        else
          var m := a.mask + {FILL_ACTIVE};
          Air(e.(idx := d.idx + 1), if d.idx == |d.blocks| - 1 then m + {FILL_LAST} else m - {FILL_LAST},
              a.log.(pushed := a.log.pushed + [Push(fn, d.blocks[d.idx])], filler := Some(d.blocks[d.idx])))
      else Air(e.(active := false), a.mask - {FILL_ACTIVE, FILL_LAST}, a.log.(filler := None, grants := a.log.grants + [d.dest]))
  }

  // ---- Order ----

  /** The blocks of a list of pushes. */
  function Blocks(pushed: seq<Push>): (b: seq<Block>)
    ensures |b| == |pushed|
  {
    seq(|pushed|, k requires 0 <= k < |pushed| => pushed[k].block)
  }

  lemma BlocksAppend(pushed: seq<Push>, p: Push)
    ensures Blocks(pushed + [p]) == Blocks(pushed) + [p.block]
  {
  }

  /** All blocks of the chains, one chain after the other. */
  function AllBlocks(chains: seq<Chain>): (b: seq<Block>) {
    if |chains| == 0 then [] else AllBlocks(chains[..|chains| - 1]) + chains[|chains| - 1].blocks
  }

  function Destinations(chains: seq<Chain>): (d: seq<nat>)
    ensures |d| == |chains|
  {
    seq(|chains|, k requires 0 <= k < |chains| => chains[k].dest)
  }

  /** The chains accepted before the running one. */
  function Finished(a: Air): (f: seq<Chain>) {
    if a.delivery.active && |a.log.chains| > 0 then a.log.chains[..|a.log.chains| - 1] else a.log.chains
  }

  /** The blocks of the running chain that are pushed. */
  function Begun(d: Delivery): (b: seq<Block>) {
    if d.active && d.idx <= |d.blocks| then d.blocks[..d.idx] else []
  }

  predicate NeverInControlFrame(pushed: seq<Push>) {
    forall k :: 0 <= k < |pushed| ==> pushed[k].fn != CONTROL_FRAME
  }

  /** The running chain is the last one accepted. */
  predicate RunsLast(a: Air) {
    a.delivery.active ==>
      && a.delivery.idx <= |a.delivery.blocks| && |a.log.chains| > 0
      && a.log.chains[|a.log.chains| - 1] == Chain(a.delivery.dest, a.delivery.blocks)
  }

  /**
   * On the air are all blocks of the finished chains and the begun part of the running one, in
   * order and each once; exactly the mobiles of the finished chains were granted a slot.
   */
  predicate InOrder(a: Air) {
    && RunsLast(a) && NeverInControlFrame(a.log.pushed)
    && Blocks(a.log.pushed) == AllBlocks(Finished(a)) + Begun(a.delivery)
    && a.log.grants == Destinations(Finished(a))
    && a.log.filler == if a.delivery.active && a.delivery.idx > 0 then Some(a.log.pushed[|a.log.pushed| - 1].block) else None
  }

  lemma StartedInOrder(a: Air, dest: nat, blocks: seq<Block>, fn: nat)
    requires InOrder(a)
    ensures InOrder(Started(a, dest, blocks, fn))
  {
    if Accepted(a.delivery, blocks) {
      var b := Started(a, dest, blocks, fn);
      assert Finished(b) == a.log.chains;
    }
  }

  /**
   * A service call keeps the order; it pushes at most the next block, and only in a new frame that
   * is not the control frame.
   */
  lemma ServicedInOrder(a: Air, fn: nat)
    requires InOrder(a)
    ensures var b := Serviced(a, fn);
            && InOrder(b) && b.log.chains == a.log.chains
            && |a.log.pushed| <= |b.log.pushed| <= |a.log.pushed| + 1 && (fn == a.delivery.lastFn ==> b == a)
  {
    var b, d := Serviced(a, fn), a.delivery;
    if b.log.pushed != a.log.pushed {
      PushedInOrder(a, fn);
    } else if d.active && !b.delivery.active {
      DoneInOrder(a, fn);
    }
  }

  lemma PushedInOrder(a: Air, fn: nat)
    requires InOrder(a) && a.delivery.active && Serviced(a, fn).delivery.idx == a.delivery.idx + 1
    ensures InOrder(Serviced(a, fn))
  {
    var b, d := Serviced(a, fn), a.delivery;
    BlocksAppend(a.log.pushed, Push(fn, d.blocks[d.idx]));
    assert d.blocks[..d.idx + 1] == d.blocks[..d.idx] + [d.blocks[d.idx]];
    assert Finished(b) == Finished(a);
  }

  lemma DoneInOrder(a: Air, fn: nat)
    requires InOrder(a) && a.delivery.active && !Serviced(a, fn).delivery.active
    ensures InOrder(Serviced(a, fn))
  {
    var b, d := Serviced(a, fn), a.delivery;
    var n := |a.log.chains| - 1;
    assert d.blocks[..d.idx] == d.blocks;
    assert AllBlocks(a.log.chains) == AllBlocks(a.log.chains[..n]) + d.blocks;
    assert Destinations(a.log.chains) == Destinations(a.log.chains[..n]) + [d.dest];
  }

  // ---- The mask bits of the delivery ----

  /** While blocks are on the air bit 4 shows the filler, and bit 8 exactly the last block. */
  predicate FillerShown(a: Air) {
    a.delivery.active && a.delivery.idx > 0 ==> 4 in a.mask && (8 in a.mask <==> a.delivery.idx == |a.delivery.blocks|)
  }

  /** Every push shows the filler and marks the last block, whatever the register held, and leaves all other bits alone. */
  lemma PushShowsFiller(a: Air, fn: nat)
    requires Serviced(a, fn).log.pushed != a.log.pushed
    ensures var b := Serviced(a, fn);
            && 4 in b.mask && (8 in b.mask <==> b.delivery.idx == |b.delivery.blocks|) && b.mask - {4, 8} == a.mask - {4, 8}
            && b.log.filler == Some(a.delivery.blocks[a.delivery.idx])
            && b.log.pushed == a.log.pushed + [Push(fn, a.delivery.blocks[a.delivery.idx])]
            && b.delivery == a.delivery.(idx := a.delivery.idx + 1, lastFn := fn)
  {
  }

  /**
   * A block goes out in every new frame but 17, except that a chain of up to 16 blocks does not begin
   * in a frame from which it would not end before frame 17.
   */
  lemma PushedIff(a: Air, fn: nat)
    ensures var d := a.delivery;
            Serviced(a, fn).log.pushed != a.log.pushed <==>
              d.active && d.idx < |d.blocks| && fn != d.lastFn && fn != 17
              && (d.idx == 0 && |d.blocks| <= 16 ==> fn + |d.blocks| - 1 < 16)
  {
  }

  /** Between pushes the bits stay; the call that ends the chain clears both. */
  lemma FillerStays(a: Air, fn: nat)
    requires FillerShown(a)
    ensures var b := Serviced(a, fn);
            && FillerShown(b) && (b.log.pushed == a.log.pushed && b.delivery.active ==> b.mask == a.mask)
            && (a.delivery.active && !b.delivery.active ==> b.mask == a.mask - {4, 8})
  {
    if Serviced(a, fn).log.pushed != a.log.pushed {
      PushShowsFiller(a, fn);
    }
  }

  /** Nothing is pushed in the frame in which a chain was accepted. */
  lemma StartWaitsForFrame(a: Air, dest: nat, blocks: seq<Block>, fn: nat)
    requires Accepted(a.delivery, blocks)
    ensures var b := Started(a, dest, blocks, fn);
            Serviced(b, fn) == b && b.delivery.dest == dest % 0x100_0000 && b.mask == a.mask && FillerShown(b)
  {
  }

  // ---- Pacing when every frame is seen ----

  function NextFrame(fn: nat): nat {
    if fn + 1 >= FRAMES then 0 else fn + 1
  }

  /** k service calls, one in every frame after the last one seen. */
  function EveryFrame(a: Air, k: nat): Air
    decreases k
  {
    if k == 0 then a else EveryFrame(Serviced(a, NextFrame(a.delivery.lastFn)), k - 1)
  }

  /** Frames to wait before the chain may start. */
  function Wait(lastFn: nat, n: nat): nat
    requires lastFn < FRAMES && n <= 16
  {
    if lastFn + 1 + n <= 16 then 0 else FRAMES - 1 - lastFn
  }

  /** Pushes of the blocks in consecutive frames from fn on. */
  function Consecutive(blocks: seq<Block>, fn: nat): (p: seq<Push>)
    ensures |p| == |blocks|
  {
    seq(|blocks|, k requires 0 <= k < |blocks| => Push(fn + k, blocks[k]))
  }

  predicate Fresh(a: Air) {
    a.delivery.active && a.delivery.idx == 0 && 1 <= |a.delivery.blocks| <= 16 && a.delivery.lastFn < FRAMES
  }

  /** Outside the window nothing happens until frame 0. */
  lemma {:induction false} Waiting(a: Air, k: nat)
    requires Fresh(a) && k == Wait(a.delivery.lastFn, |a.delivery.blocks|)
    ensures EveryFrame(a, k) == if k == 0 then a else a.(delivery := a.delivery.(lastFn := FRAMES - 1))
    decreases k
  {
    if k > 0 {
      var next := NextFrame(a.delivery.lastFn);
      var b := Serviced(a, next);
      if a.delivery.lastFn < FRAMES - 1 {
        assert b == a.(delivery := a.delivery.(lastFn := next));
        if k > 1 {
          Waiting(b, k - 1);
        }
      }
    }
  }

  /** From a frame inside the window the rest of the chain goes out without a gap. */
  lemma {:induction false} Pushing(a: Air, fn: nat, rest: nat)
    requires a.delivery.active && 1 <= |a.delivery.blocks| && a.delivery.idx + rest == |a.delivery.blocks|
    requires fn == NextFrame(a.delivery.lastFn) && a.delivery.lastFn < FRAMES
    requires fn + |a.delivery.blocks| - a.delivery.idx <= 16
    ensures var b := EveryFrame(a, rest);
            && b.log.pushed == a.log.pushed + Consecutive(a.delivery.blocks[a.delivery.idx..], fn)
            && b.delivery.active && b.delivery.idx == |b.delivery.blocks| && b.delivery.blocks == a.delivery.blocks
            && b.delivery.dest == a.delivery.dest && b.log.grants == a.log.grants
            && (rest > 0 ==> b.delivery.lastFn == fn + rest - 1)
    decreases rest
  {
    var d := a.delivery;
    if rest > 0 {
      var c := Serviced(a, fn);
      assert c.delivery.idx == d.idx + 1 && c.log.pushed == a.log.pushed + [Push(fn, d.blocks[d.idx])];
      assert d.blocks[d.idx..] == [d.blocks[d.idx]] + d.blocks[d.idx + 1..];
      assert Consecutive(d.blocks[d.idx..], fn) == [Push(fn, d.blocks[d.idx])] + Consecutive(d.blocks[d.idx + 1..], fn + 1);
      Pushing(c, fn + 1, rest - 1);
    } else {
      assert d.blocks[d.idx..] == [];
    }
  }

  lemma {:induction false} EveryFrameSplits(a: Air, j: nat, k: nat)
    ensures EveryFrame(a, j + k) == EveryFrame(EveryFrame(a, j), k)
    decreases j
  {
    if j > 0 {
      EveryFrameSplits(Serviced(a, NextFrame(a.delivery.lastFn)), j - 1, k);
    }
  }

  /**
   * When every frame is seen, the chain occupies consecutive frames that end before the control
   * frame, and the delivery is over after Wait + n + 1 frames, which is at most 2 n + 2, with the
   * filler cleared and a slot granted to the mobile.
   */
  lemma ChainIsGapless(a: Air)
    requires Fresh(a)
    ensures var n := |a.delivery.blocks|;
            var wait := Wait(a.delivery.lastFn, n);
            var first := if wait == 0 then NextFrame(a.delivery.lastFn) else 0;
            var b := EveryFrame(a, wait + n + 1);
            && first + n <= 16 && wait + n + 1 <= 2 * n + 2
            && b.log.pushed == a.log.pushed + Consecutive(a.delivery.blocks, first)
            && !b.delivery.active && FILL_ACTIVE !in b.mask && FILL_LAST !in b.mask
            && b.log.filler == None && b.log.grants == a.log.grants + [a.delivery.dest]
  {
    var n := |a.delivery.blocks|;
    var wait := Wait(a.delivery.lastFn, n);
    var first := if wait == 0 then NextFrame(a.delivery.lastFn) else 0;
    Waiting(a, wait);
    var b := EveryFrame(a, wait);
    assert NextFrame(b.delivery.lastFn) == first;
    Pushing(b, first, n);
    assert a.delivery.blocks[0..] == a.delivery.blocks;
    EveryFrameSplits(a, wait, n);
    EveryFrameSplits(a, wait + n, 1);
    var c := EveryFrame(a, wait + n);
    assert EveryFrame(c, 1) == Serviced(c, NextFrame(c.delivery.lastFn));
  }

  /** air is what a fresh chain pushes when every frame is seen. */
  ghost predicate PutsOnAir(a: Air, air: seq<Push>) {
    Fresh(a) &&
    EveryFrame(a, Wait(a.delivery.lastFn, |a.delivery.blocks|) + |a.delivery.blocks| + 1).log.pushed == a.log.pushed + air
  }

  /** What such a chain puts on the air are its blocks. */
  lemma ChainOnAir(a: Air, air: seq<Push>)
    requires PutsOnAir(a, air)
    ensures Blocks(air) == a.delivery.blocks
  {
    ChainIsGapless(a);
    var blocks := a.delivery.blocks;
    var first := if Wait(a.delivery.lastFn, |blocks|) == 0 then NextFrame(a.delivery.lastFn) else 0;
    SameTail(a.log.pushed, air, Consecutive(blocks, first));
  }

  lemma SameTail<T>(s: seq<T>, a: seq<T>, b: seq<T>)
    requires s + a == s + b
    ensures a == b
  {
    assert a == (s + a)[|s|..] && b == (s + b)[|s|..];
  }
}
