/** The comb count of a root that one of its own members reads: too small, and what that costs. */
module RootCounts {
  import opened Seqs
  import opened LogicNetwork
  import opened BufferEdits
  import opened NetworkPasses
  import opened BleState
  import opened SatSpec
  import opened BleLegality
  import opened BleOutputs
  import opened CombCounts
  import opened LatchOutputs
  import opened LocalDfs
  import opened PackRun
  import opened PatternSpec
  import opened PatternPick

  // ----- what a small count costs

  /** A count that is too small makes no difference, unless the true count is the whole fan-out and a
      latch waits; and then the node is placed in the same cases and takes at most one output more. */
  lemma SmallCountCosts(net: Net, arch: Arch, s: Ble, cell: nat, cur: nat, small: nat, right: nat)
    requires Shaped(net) && Fits(arch, s) && cell < |arch.cells| && cur < net.Size() && net.kind[cur] != Buf
    requires small <= right <= CombFanout(net, cur)
    ensures var a, b := SatOutputs(net, arch, s, cell, cur, small), SatOutputs(net, arch, s, cell, cur, right);
      && (small == right || right < CombFanout(net, cur) || FirstLatch(net, net.outs[cur]).None? ==> a == b)
      && (a.Done? <==> b.Done?)
      && (a.Done? ==> |UsedOuts(b.ble)| <= |UsedOuts(a.ble)| <= |UsedOuts(b.ble)| + 1)
  {
    hide SatBleOut, UsedOuts, CombFanout, FirstLatch, OneFree, TwoFree, SomeServes, KeepsOuts;
    SatOutputsExactly(net, arch, s, cell, cur, small);
    SatOutputsExactly(net, arch, s, cell, cur, right);
  }

  // ----- the smallest such pattern

  /** Gate 1 feeds gate 0, gate 0 feeds latch 2, latch 2 feeds gate 1. */
  function Ring(): Net {
    Net([Gate, Gate, Latch], [[1], [2], [0]], [[2], [0], [1]], [false, false, false], [-1, -1, -1], [-1, -1, -1],
        [[false, false], [false, false], []], [0, 1], [0, 1], [2])
  }

  lemma RingIsPrepared()
    ensures Prepared(Ring()) && OneLatch(Ring())
  {
    hide Agree, Ring, Ranked, ArityOk, ListsOk, OneLatch;
    RingHasOneLatch();
    RingAgrees();
    RingArity();
    RingLists();
    assert Ranked(Ring(), [2, 1, 0]);
  }

  lemma RingAgrees()
    ensures Shaped(Ring()) && Agree(Ring())
  {
    var net := Ring();
    forall u: nat, v: nat | u < 3 && v < 3 ensures Count(net.outs[u], v) == Count(net.ins[v], u) {
      CountOne(net.outs[u][0], v);
      CountOne(net.ins[v][0], u);
    }
  }

  lemma RingArity()
    ensures var net := Ring();
      Shaped(net) && Ranked(net, [2, 1, 0]) && forall n :: 0 <= n < net.Size() ==>
        ArityOk(net.kind[n], net.ins[n], net.outs[n])
  {
  }

  lemma RingHasOneLatch()
    ensures Shaped(Ring()) && OneLatch(Ring())
  {
    assert forall d :: 0 <= d < 3 ==> |Ring().outs[d]| == 1;
  }

  lemma RingLists()
    ensures ListsOk(Ring())
  {
    var net := Ring();
    assert net.list[0] == 0 && net.list[1] == 1 && net.latches[0] == 2;
    assert forall n: nat :: n in net.list <==> n == 0 || n == 1;
    assert forall n: nat :: n in net.latches <==> n == 2;
  }

  /** In normal mode gate 0 is a member for root 1, because it drives the unmapped latch that 1 reads. */
  lemma RingPattern()
    ensures Prepared(Ring()) && PatternOf(Ring(), Normal, [0, 1])
  {
    hide Prepared, Ring, SatPreds, TopoOrdered;
    RingIsPrepared();
    RingIsOk();
    RingPreds();
    RingParts();
  }

  lemma RingPreds()
    ensures NetOk(Ring()) && |Ring().ins[1]| == 1 && SatPreds(Ring(), Normal, 1, 1) == [0]
  {
    hide Agree, ArityOk;
    RingIsOk();
    NoPreds(Ring(), Normal, 1);
    PredsNext(Ring(), Normal, 1, 0);
  }

  lemma RingParts()
    ensures var net := Ring();
      && Distinct([0, 1]) && [0, 1][..1] == [0] && TopoOrdered(net.ins, [0]) && net.Size() == 3 && |net.mapped| == 3
      && net.IsGate(0) && net.IsGate(1) && !net.mapped[0] && !net.mapped[1]
  {
    assert !Edge(Ring().ins, [0], 0, 0);
  }

  lemma RingIsOk()
    ensures NetOk(Ring())
  {
    RingIsPrepared();
  }

  /** All that root 1 drives is in the BLE with it, and yet its count is zero. */
  lemma RootCountTooSmall(arch: Arch)
    requires |arch.cells| >= 2
    ensures var net, s := Ring(), InitBle(arch);
      && Prepared(net) && OneLatch(net) && PatternOf(net, Normal, [0, 1])
      && CellsOk(net, s) && SlotsInRange(net, s) && GoodMembers(net, arch, s, [0, 1], [0, 1])
      && CombNum(net, s, [0, 1], 1) == 0
      && EntriesIn(net.outs[1], [0, 1] + PlacedNodes(s.cells)) == CombFanout(net, 1) == 1
  {
    hide Prepared, OneLatch, PatternOf;
    RingIsPrepared();
    RingPattern();
    var net, s := Ring(), InitBle(arch);
    NothingPlaced(s.cells);
    BlankMembers(net, arch);
    assert [0, 1][2..] == [] && net.outs[1] == [0] && net.outs[1][1..] == [];
    assert EntriesIn(net.outs[1][1..], [0, 1]) == 0 && NonLatches(net, net.outs[1][1..]) == 0;
  }

  lemma {:induction false} NothingPlaced(cells: seq<CellSlot>)
    requires forall c :: 0 <= c < |cells| ==> !cells[c].used
    ensures PlacedNodes(cells) == []
  {
    if cells != [] {
      NothingPlaced(cells[1..]);
    }
  }

  lemma BlankMembers(net: Net, arch: Arch)
    requires net == Ring() && |arch.cells| >= 2
    ensures GoodMembers(net, arch, InitBle(arch), [0, 1], [0, 1])
  {
    InCellsIs(InitBle(arch), 0);
    InCellsIs(InitBle(arch), 1);
  }
}
