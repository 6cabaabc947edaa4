/** When a new node gets its outputs, which ones, and that its latch gets one whenever that is possible. */
module LatchOutputs {
  import opened Seqs
  import opened LogicNetwork
  import opened NetworkPasses
  import opened BleState
  import opened SatSpec
  import opened BleLegality
  import opened BleOutputs
  import opened CombCounts

  function UsedOuts(s: Ble): set<nat> { set o: nat | o < |s.outs| && s.outs[o].used }

  /** Output o is free and one of its candidates is the cell. */
  ghost predicate FreeFor(arch: Arch, s: Ble, cell: nat, o: nat) {
    o < |s.outs| && o < |arch.outputs| && !s.outs[o].used
    && exists k :: 0 <= k < |arch.outputs[o].cands| && arch.outputs[o].cands[k] == BleNd(cell)
  }

  ghost predicate OneFree(arch: Arch, s: Ble, cell: nat) { exists o: nat :: FreeFor(arch, s, cell, o) }

  ghost predicate TwoFree(arch: Arch, s: Ble, cell: nat) {
    exists o: nat, p: nat :: o != p && FreeFor(arch, s, cell, o) && FreeFor(arch, s, cell, p)
  }

  /** Outputs in use stay as they are. */
  ghost predicate KeepsOuts(s: Ble, t: Ble) {
    |t.outs| == |s.outs| && forall o :: 0 <= o < |s.outs| && s.outs[o].used ==> t.outs[o] == s.outs[o]
  }

  lemma KeepsOutsTrans(s: Ble, t: Ble, u: Ble)
    requires KeepsOuts(s, t) && KeepsOuts(t, u)
    ensures KeepsOuts(s, u)
  {
  }

  lemma ServesKept(arch: Arch, t: Ble, u: Ble, cell: nat, isComb: bool, node: nat)
    requires Fits(arch, t) && Fits(arch, u) && KeepsOuts(t, u) && SomeServes(arch, t, cell, isComb, node)
    ensures SomeServes(arch, u, cell, isComb, node)
  {
    var o :| 0 <= o < |t.outs| && Serves(arch, t, o, cell, isComb, node);
    assert Serves(arch, u, o, cell, isComb, node);
  }

  lemma NoneFreeKept(arch: Arch, t: Ble, u: Ble, cell: nat)
    requires Fits(arch, t) && Fits(arch, u) && KeepsOuts(t, u) && !OneFree(arch, t, cell)
    ensures !OneFree(arch, u, cell)
  {
    forall o: nat ensures !FreeFor(arch, u, cell, o) {
      assert !FreeFor(arch, t, cell, o);
    }
  }

  lemma PlaceKeeps(arch: Arch, s: Ble, cell: nat, node: nat)
    requires Fits(arch, s) && cell < |s.cells|
    ensures UsedOuts(Place(s, cell, node)) == UsedOuts(s) && KeepsOuts(s, Place(s, cell, node))
    ensures OneFree(arch, Place(s, cell, node), cell) <==> OneFree(arch, s, cell)
  {
    var t := Place(s, cell, node);
    forall o: nat ensures FreeFor(arch, t, cell, o) <==> FreeFor(arch, s, cell, o) {
    }
  }

  /** sat_ble_out finds an output exactly if one is free, and takes one. */
  lemma TakesOne(arch: Arch, s: Ble, isComb: bool, cell: nat, node: nat)
    requires Fits(arch, s)
    ensures SatBleOut(arch, s, isComb, cell, node).Some? <==> OneFree(arch, s, cell)
    ensures SatBleOut(arch, s, isComb, cell, node).Some? ==>
      var t := SatBleOut(arch, s, isComb, cell, node).value;
      && |UsedOuts(t)| == |UsedOuts(s)| + 1 && KeepsOuts(s, t) && t.cells == s.cells
      && SomeServes(arch, t, cell, isComb, node) && (OneFree(arch, t, cell) <==> TwoFree(arch, s, cell))
  {
    BestOutIsCheapest(arch, s, isComb, cell, |arch.outputs|);
    forall o: nat | o < |arch.outputs| ensures OutFits(arch, s, cell, o) <==> FreeFor(arch, s, cell, o) {
    }
    if SatBleOut(arch, s, isComb, cell, node).Some? {
      var c := BestOut(arch, s, isComb, cell, |arch.outputs|).value;
      assert FreeFor(arch, s, cell, c.output);
      TookThis(arch, s, isComb, cell, node, c.output, c.mux);
    }
  }

  lemma TookThis(arch: Arch, s: Ble, isComb: bool, cell: nat, node: nat, o: nat, k: nat)
    requires Fits(arch, s) && FreeFor(arch, s, cell, o) && k < |arch.outputs[o].cands|
    requires arch.outputs[o].cands[k] == BleNd(cell)
    ensures var t := s.(outs := s.outs[o := OutSlot(true, k, if isComb then 1 else 0, Some(node))]);
      && |UsedOuts(t)| == |UsedOuts(s)| + 1 && KeepsOuts(s, t)
      && SomeServes(arch, t, cell, isComb, node) && (OneFree(arch, t, cell) <==> TwoFree(arch, s, cell))
  {
    var t := s.(outs := s.outs[o := OutSlot(true, k, if isComb then 1 else 0, Some(node))]);
    assert UsedOuts(t) == UsedOuts(s) + {o} && o !in UsedOuts(s);
    assert Serves(arch, t, o, cell, isComb, node);
    forall p: nat ensures FreeFor(arch, t, cell, p) <==> p != o && FreeFor(arch, s, cell, p) {
    }
    if TwoFree(arch, s, cell) {
      var p: nat, q: nat :| p != q && FreeFor(arch, s, cell, p) && FreeFor(arch, s, cell, q);
      assert FreeFor(arch, t, cell, if p == o then q else p);
    }
  }

  /** sat_lgknd_outputs places a node exactly if an output that can select its cell is free, and then takes
      exactly: one for the node if it drives something outside or has no latch to serve, and one for its
      latch if it has one and, besides the node's own, one is still free. */
  lemma SatOutputsExactly(net: Net, arch: Arch, s: Ble, cell: nat, cur: nat, combNum: nat)
    requires Shaped(net) && Fits(arch, s) && cell < |arch.cells| && cur < net.Size()
    requires !SatOutputs(net, arch, s, cell, cur, combNum).Exits?
    ensures SatOutputs(net, arch, s, cell, cur, combNum).Done? <==> OneFree(arch, s, cell)
    ensures SatOutputs(net, arch, s, cell, cur, combNum).Done? ==>
      var t := SatOutputs(net, arch, s, cell, cur, combNum).ble;
      var latch := FirstLatch(net, net.outs[cur]);
      var outside := CombFanout(net, cur) > combNum;
      && KeepsOuts(s, t)
      && (outside || latch.None? ==> SomeServes(arch, t, cell, true, cur))
      && (latch.Some? && (!outside || TwoFree(arch, s, cell)) ==> SomeServes(arch, t, cell, false, latch.value))
      && (latch.Some? && outside && !TwoFree(arch, s, cell) ==> !OneFree(arch, t, cell))
      && |UsedOuts(t)| == |UsedOuts(s)| + if latch.Some? && outside && TwoFree(arch, s, cell) then 2 else 1
  {
    hide SatBleOut, UsedOuts, CombFanout, FirstLatch, OneFree, TwoFree, SomeServes, KeepsOuts;
    var latch := FirstLatch(net, net.outs[cur]);
    TakesOne(arch, s, true, cell, cur);
    var first := SatBleOut(arch, s, true, cell, cur);
    if first.Some? {
      PlaceKeeps(arch, first.value, cell, cur);
      PlaceServes(arch, first.value, cell, cur, true, cur);
      KeepsOutsTrans(s, first.value, Place(first.value, cell, cur));
    }
    if latch.Some? {
      var t := if CombFanout(net, cur) > combNum then first else Some(s);
      if t.Some? {
        TakesOne(arch, t.value, false, cell, latch.value);
        var second := SatBleOut(arch, t.value, false, cell, latch.value);
        if second.Some? {
          SecondTaken(arch, s, t.value, second.value, cell, cur, latch.value);
        }
      }
    }
  }

  lemma PlaceServes(arch: Arch, t: Ble, cell: nat, cur: nat, isComb: bool, node: nat)
    requires Fits(arch, t) && cell < |t.cells| && SomeServes(arch, t, cell, isComb, node)
    ensures SomeServes(arch, Place(t, cell, cur), cell, isComb, node)
  {
    var o :| 0 <= o < |t.outs| && Serves(arch, t, o, cell, isComb, node);
    assert Serves(arch, Place(t, cell, cur), o, cell, isComb, node);
  }

  lemma SecondTaken(arch: Arch, s: Ble, t: Ble, u: Ble, cell: nat, cur: nat, latch: nat)
    requires Fits(arch, s) && Fits(arch, t) && Fits(arch, u) && cell < |u.cells|
    requires (t == s || KeepsOuts(s, t)) && KeepsOuts(t, u) && SomeServes(arch, u, cell, false, latch)
    ensures var p := Place(u, cell, cur);
      && KeepsOuts(s, p) && UsedOuts(p) == UsedOuts(u) && SomeServes(arch, p, cell, false, latch)
      && (SomeServes(arch, t, cell, true, cur) ==> SomeServes(arch, p, cell, true, cur))
  {
    hide SomeServes, UsedOuts;
    PlaceKeeps(arch, u, cell, cur);
    PlaceServes(arch, u, cell, cur, false, latch);
    if SomeServes(arch, t, cell, true, cur) {
      ServesKept(arch, t, u, cell, true, cur);
      PlaceServes(arch, u, cell, cur, true, cur);
    }
  }

  // ----- the whole batch

  /** The first unmapped latch of x is on a sequential output of the cell; or the node drives something
      that is not counted as inside and every output that can select the cell is in use. */
  ghost predicate LatchPlaced(net: Net, arch: Arch, t: Ble, cell: nat, x: nat, combNum: nat)
    requires Shaped(net) && Fits(arch, t) && x < net.Size()
  {
    var latch := FirstLatch(net, net.outs[x]);
    latch.Some? ==>
      SomeServes(arch, t, cell, false, latch.value)
      || (net.kind[x] != Buf && CombFanout(net, x) > combNum && !OneFree(arch, t, cell))
  }

  lemma SatOutputsPlaces(net: Net, arch: Arch, s: Ble, cell: nat, cur: nat, combNum: nat)
    requires Shaped(net) && Fits(arch, s) && cell < |arch.cells| && cur < net.Size()
    requires SatOutputs(net, arch, s, cell, cur, combNum).Done?
    ensures var t := SatOutputs(net, arch, s, cell, cur, combNum).ble;
      KeepsOuts(s, t) && LatchPlaced(net, arch, t, cell, cur, combNum)
  {
    hide SatOutputs, CombFanout, FirstLatch, OneFree, TwoFree, SomeServes, KeepsOuts;
    SatOutputsExactly(net, arch, s, cell, cur, combNum);
    SatOutputsExits(net, arch, s, cell, cur, combNum);
  }

  lemma PlacedKept(net: Net, arch: Arch, t: Ble, u: Ble, cell: nat, x: nat, combNum: nat)
    requires Shaped(net) && Fits(arch, t) && Fits(arch, u) && x < net.Size() && KeepsOuts(t, u)
    requires LatchPlaced(net, arch, t, cell, x, combNum)
    ensures LatchPlaced(net, arch, u, cell, x, combNum)
  {
    hide CombFanout, FirstLatch, OneFree, SomeServes, KeepsOuts;
    var latch := FirstLatch(net, net.outs[x]);
    if latch.Some? {
      if SomeServes(arch, t, cell, false, latch.value) {
        ServesKept(arch, t, u, cell, false, latch.value);
      } else {
        NoneFreeKept(arch, t, u, cell);
      }
    }
  }

  lemma {:induction false} OutputsFromPlaces(net: Net, arch: Arch, t: Ble, members: seq<nat>, idxes: seq<nat>,
      combs: seq<nat>, i: nat, j: nat)
    requires Shaped(net) && Fits(arch, t) && |idxes| == |members| == |combs| && i < |members| && j < |members|
    requires forall k :: 0 <= k < |members| ==> members[k] < net.Size() && idxes[k] < |arch.cells|
    requires OutputsFrom(net, arch, t, members, idxes, combs, i).Done?
    requires j < i || j == |members| - 1 ==> LatchPlaced(net, arch, t, idxes[j], members[j], combs[j])
    ensures LatchPlaced(net, arch, OutputsFrom(net, arch, t, members, idxes, combs, i).ble, idxes[j], members[j],
      combs[j])
    decreases |members| - i
  {
    hide SatOutputs, LatchPlaced, KeepsOuts;
    if i < |members| - 1 {
      SatOutputsPlaces(net, arch, t, idxes[i], members[i], combs[i]);
      var u := SatOutputs(net, arch, t, idxes[i], members[i], combs[i]).ble;
      if j < i || j == |members| - 1 {
        PlacedKept(net, arch, t, u, idxes[j], members[j], combs[j]);
      }
      OutputsFromPlaces(net, arch, u, members, idxes, combs, i + 1, j);
    }
  }

  lemma AllOutputsPlaces(net: Net, arch: Arch, s: Ble, members: seq<nat>, idxes: seq<nat>, combs: seq<nat>, j: nat)
    requires Shaped(net) && Fits(arch, s) && |idxes| == |members| == |combs| && members != [] && j < |members|
    requires forall k :: 0 <= k < |members| ==> members[k] < net.Size() && idxes[k] < |arch.cells|
    requires AllOutputs(net, arch, s, members, idxes, combs).Done?
    ensures LatchPlaced(net, arch, AllOutputs(net, arch, s, members, idxes, combs).ble, idxes[j], members[j], combs[j])
  {
    hide SatOutputs, LatchPlaced, KeepsOuts;
    var root := |members| - 1;
    SatOutputsPlaces(net, arch, s, idxes[root], members[root], combs[root]);
    OutputsFromPlaces(net, arch, SatOutputs(net, arch, s, idxes[root], members[root], combs[root]).ble, members, idxes,
      combs, 0, j);
  }

  /** The i-th new node's latch, without the count: it is on a sequential output of the node's cell, or the
      node is no buffer, drives something that is neither a later new node nor was in the BLE before, and
      every output that can select its cell is in use. */
  ghost predicate LatchSettled(net: Net, arch: Arch, s: Ble, t: Ble, members: seq<nat>, idxes: seq<nat>, i: nat)
    requires Shaped(net) && Fits(arch, t) && i < |members| && i < |idxes| && members[i] < net.Size()
  {
    var x := members[i];
    var latch := FirstLatch(net, net.outs[x]);
    latch.Some? ==>
      SomeServes(arch, t, idxes[i], false, latch.value)
      || (net.kind[x] != Buf && !OneFree(arch, t, idxes[i])
          && exists f :: f in net.outs[x] && !net.IsLatch(f) && f !in members[i + 1..] && !InCells(s, f))
  }

  lemma PlacedSettles(net: Net, arch: Arch, s: Ble, t: Ble, members: seq<nat>, idxes: seq<nat>, i: nat)
    requires NetOk(net) && CellsOk(net, s) && GoodMembers(net, arch, s, members, idxes) && i < |members|
      && SlotsInRange(net, s)
    requires Fits(arch, t) && forall j :: 0 <= j < |members| ==> members[j] < net.Size()
    requires LatchPlaced(net, arch, t, idxes[i], members[i], CombNum(net, s, members, i))
    ensures LatchSettled(net, arch, s, t, members, idxes, i)
  {
    hide CombNum, CombFanout, FirstLatch, OneFree, SomeServes, Agree, ArityOk, CellsOk, InCells;
    CombNumAgainstFanout(net, arch, s, members, idxes, i);
  }
}
