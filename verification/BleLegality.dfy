/** What makes a BLE record a legal packing, and that handing out outputs keeps its part of it. */
module BleLegality {
  import opened Seqs
  import opened LogicNetwork
  import opened NetworkPasses
  import opened BleState
  import opened SatSpec

  /** Used flags match the node slots; cells hold different gates. */
  ghost predicate CellsOk(net: Net, s: Ble) {
    && (forall c :: 0 <= c < |s.cells| ==> (s.cells[c].used <==> s.cells[c].node.Some?))
    && (forall c :: 0 <= c < |s.cells| && s.cells[c].node.Some? ==> net.IsGate(s.cells[c].node.value))
    && (forall c, d :: 0 <= c < d < |s.cells| && s.cells[c].node.Some? ==> s.cells[c].node != s.cells[d].node)
  }

  /** The cell the mux of output o selects. */
  function OutCell(arch: Arch, s: Ble, o: nat): Option<nat>
    requires Fits(arch, s) && o < |s.outs|
  {
    var k := s.outs[o].mux;
    if 0 <= k < |arch.outputs[o].cands| && arch.outputs[o].cands[k].BleNd? && arch.outputs[o].cands[k].cell < |s.cells|
    then Some(arch.outputs[o].cands[k].cell)
    else None
  }

  /** A used output selects a cell that holds its node (combinational, 1) or, for a latch
      (sequential, 0), the latch's driver. */
  ghost predicate OutOk(net: Net, arch: Arch, s: Ble, o: nat)
    requires Fits(arch, s) && o < |s.outs|
  {
    && (s.outs[o].used <==> s.outs[o].node.Some?)
    && (s.outs[o].used ==>
          OutCell(arch, s, o).Some? && s.cells[OutCell(arch, s, o).value].node.Some?
          && Drives(net, s.cells[OutCell(arch, s, o).value].node.value, s.outs[o].node.value, s.outs[o].typ))
  }

  /** Node n may leave on an output of type typ whose mux selects the cell of x. */
  predicate Drives(net: Net, x: nat, n: nat, typ: int) {
    (typ == 1 && n == x) || (typ == 0 && net.IsLatch(n) && n < |net.ins| && net.ins[n] == [x])
  }

  ghost predicate OutsOk(net: Net, arch: Arch, s: Ble)
    requires Fits(arch, s)
  {
    forall o :: 0 <= o < |s.outs| ==> OutOk(net, arch, s, o)
  }

  /** Some used output selects cell c. */
  ghost predicate Owned(arch: Arch, s: Ble, c: nat)
    requires Fits(arch, s)
  {
    exists o :: 0 <= o < |s.outs| && s.outs[o].used && OutCell(arch, s, o) == Some(c)
  }

  ghost predicate AllOwned(arch: Arch, s: Ble)
    requires Fits(arch, s)
  {
    forall c :: 0 <= c < |s.cells| && s.cells[c].node.Some? ==> Owned(arch, s, c)
  }

  /** The output side of a legal record. */
  ghost predicate OutSide(net: Net, arch: Arch, s: Ble) {
    Fits(arch, s) && CellsOk(net, s) && OutsOk(net, arch, s) && AllOwned(arch, s)
  }

  lemma OnOutputIs(s: Ble, n: nat)
    ensures OnOutput(s, n) <==> exists o :: 0 <= o < |s.outs| && s.outs[o].node == Some(n)
  {
    if OnOutput(s, n) {
      var o :| 0 <= o < |OutNodes(s)| && OutNodes(s)[o] == Some(n);
      assert s.outs[o].node == Some(n);
    }
    if o :| 0 <= o < |s.outs| && s.outs[o].node == Some(n) {
      assert OutNodes(s)[o] == Some(n);
    }
  }

  lemma InCellsIs(s: Ble, n: nat)
    ensures InCells(s, n) <==> exists c :: 0 <= c < |s.cells| && s.cells[c].node == Some(n)
  {
    if InCells(s, n) {
      var c :| 0 <= c < |CellNodes(s)| && CellNodes(s)[c] == Some(n);
      assert s.cells[c].node == Some(n);
    }
    if c :| 0 <= c < |s.cells| && s.cells[c].node == Some(n) {
      assert CellNodes(s)[c] == Some(n);
    }
  }

  /** What sat_ble_out changed: one output, free before, whose mux reaches the cell. */
  ghost predicate TookOut(arch: Arch, s: Ble, t: Ble, isComb: bool, cell: nat, node: nat)
    requires Fits(arch, s) && Fits(arch, t)
  {
    exists o, k :: 0 <= o < |s.outs| && 0 <= k < |arch.outputs[o].cands| && !s.outs[o].used
      && arch.outputs[o].cands[k] == BleNd(cell)
      && t == s.(outs := s.outs[o := OutSlot(true, k, if isComb then 1 else 0, Some(node))])
  }

  lemma SatBleOutTakes(arch: Arch, s: Ble, isComb: bool, cell: nat, node: nat)
    requires Fits(arch, s) && SatBleOut(arch, s, isComb, cell, node).Some?
    ensures TookOut(arch, s, SatBleOut(arch, s, isComb, cell, node).value, isComb, cell, node)
  {
    BestOutIsCheapest(arch, s, isComb, cell, |arch.outputs|);
    var c := BestOut(arch, s, isComb, cell, |arch.outputs|).value;
    assert arch.outputs[c.output].cands[c.mux] == BleNd(cell);
  }

  /** t has every output of s that was in use, and the same cells and inputs. */
  ghost predicate MoreOuts(s: Ble, t: Ble) {
    && t.cells == s.cells && t.ins == s.ins && t.ports == s.ports && |t.outs| == |s.outs|
    && forall o :: 0 <= o < |s.outs| && s.outs[o].used ==> t.outs[o] == s.outs[o]
  }

  /** A further output of t serves the node in the cell. */
  ghost predicate Serves(arch: Arch, t: Ble, o: nat, cell: nat, isComb: bool, node: nat)
    requires Fits(arch, t) && o < |t.outs|
  {
    t.outs[o].used && t.outs[o].node == Some(node) && t.outs[o].typ == (if isComb then 1 else 0)
    && 0 <= t.outs[o].mux < |arch.outputs[o].cands| && arch.outputs[o].cands[t.outs[o].mux] == BleNd(cell)
  }

  /** Every output in use in t was in use in s or serves cur, as itself or through the latch. */
  ghost predicate NewOutsServe(arch: Arch, s: Ble, t: Ble, cell: nat, cur: nat, latch: Option<nat>)
    requires Fits(arch, s) && Fits(arch, t) && MoreOuts(s, t)
  {
    forall o :: 0 <= o < |t.outs| ==>
      t.outs[o] == s.outs[o]
      || (!s.outs[o].used
        && (Serves(arch, t, o, cell, true, cur) || (latch.Some? && Serves(arch, t, o, cell, false, latch.value))))
  }

  ghost predicate FlagsOk(s: Ble) {
    forall o :: 0 <= o < |s.outs| ==> (s.outs[o].used <==> s.outs[o].node.Some?)
  }

  lemma MoreOutsKeep(s: Ble, t: Ble, n: nat)
    requires MoreOuts(s, t) && FlagsOk(s) && OnOutput(s, n)
    ensures OnOutput(t, n)
  {
    OnOutputIs(s, n);
    OnOutputIs(t, n);
    var o :| 0 <= o < |s.outs| && s.outs[o].node == Some(n);
    assert t.outs[o] == s.outs[o];
  }

  ghost predicate SomeServes(arch: Arch, t: Ble, cell: nat, isComb: bool, node: nat)
    requires Fits(arch, t)
  {
    exists o :: 0 <= o < |t.outs| && Serves(arch, t, o, cell, isComb, node)
  }

  lemma TookOutServes(arch: Arch, s: Ble, t: Ble, u: Ble, isComb: bool, cell: nat, node: nat, cur: nat,
      latch: Option<nat>)
    requires Fits(arch, s) && Fits(arch, t) && Fits(arch, u) && MoreOuts(s, t)
      && NewOutsServe(arch, s, t, cell, cur, latch)
    requires TookOut(arch, t, u, isComb, cell, node) && FlagsOk(t)
    requires if isComb then node == cur else latch == Some(node)
    ensures MoreOuts(s, u) && NewOutsServe(arch, s, u, cell, cur, latch) && MoreOuts(t, u) && FlagsOk(u)
    ensures OnOutput(u, node) && SomeServes(arch, u, cell, isComb, node)
  {
    var o, k :| 0 <= o < |t.outs| && 0 <= k < |arch.outputs[o].cands| && !t.outs[o].used
      && arch.outputs[o].cands[k] == BleNd(cell)
      && u == t.(outs := t.outs[o := OutSlot(true, k, if isComb then 1 else 0, Some(node))]);
    assert Serves(arch, u, o, cell, isComb, node);
    OnOutputIs(u, node);
    forall p | 0 <= p < |u.outs|
      ensures u.outs[p] == s.outs[p]
        || (!s.outs[p].used
          && (Serves(arch, u, p, cell, true, cur) || (latch.Some? && Serves(arch, u, p, cell, false, latch.value))))
    {
      if p != o {
        assert u.outs[p] == t.outs[p];
        assert Serves(arch, t, p, cell, true, cur) ==> Serves(arch, u, p, cell, true, cur);
      }
    }
  }

  /** The outcome of sat_lgknd_outputs for a node: t differs from s by the placement and outputs. */
  ghost predicate Outputted(net: Net, arch: Arch, s: Ble, t: Ble, cell: nat, cur: nat, combNum: nat)
    requires Shaped(net) && Fits(arch, s) && Fits(arch, t) && cell < |s.cells| && cur < net.Size()
  {
    var latch := FirstLatch(net, net.outs[cur]);
    && t.cells == s.cells[cell := CellSlot(true, Some(cur))]
    && MoreOuts(s, t.(cells := s.cells))
    && NewOutsServe(arch, s, t.(cells := s.cells), cell, cur, latch)
    && (SomeServes(arch, t, cell, true, cur) || (latch.Some? && SomeServes(arch, t, cell, false, latch.value)))
    && (CombFanout(net, cur) > combNum || latch.None? ==> OnOutput(t, cur))
    && (latch.Some? ==> OnOutput(t, latch.value) || OnOutput(t, cur))
    && (latch.Some? && net.kind[cur] == Buf ==> OnOutput(t, latch.value))
    && FlagsOk(t)
  }

  /** Placing the node is independent of its outputs. */
  lemma OutputtedAfterPlace(net: Net, arch: Arch, s: Ble, t: Ble, cell: nat, cur: nat, combNum: nat)
    requires Shaped(net) && Fits(arch, s) && Fits(arch, t) && cell < |s.cells| && cur < net.Size() && FlagsOk(t)
    requires MoreOuts(s, t)
    requires var latch := FirstLatch(net, net.outs[cur]);
      && NewOutsServe(arch, s, t, cell, cur, latch)
      && (SomeServes(arch, t, cell, true, cur) || (latch.Some? && SomeServes(arch, t, cell, false, latch.value)))
      && (CombFanout(net, cur) > combNum || latch.None? ==> OnOutput(t, cur))
      && (latch.Some? ==> OnOutput(t, latch.value) || OnOutput(t, cur))
      && (latch.Some? && net.kind[cur] == Buf ==> OnOutput(t, latch.value))
    ensures Outputted(net, arch, s, Place(t, cell, cur), cell, cur, combNum)
  {
    var p := Place(t, cell, cur);
    var latch := FirstLatch(net, net.outs[cur]);
    assert OutNodes(p) == OutNodes(t);
    assert p.(cells := s.cells) == t;
    forall isComb, node | SomeServes(arch, t, cell, isComb, node) ensures SomeServes(arch, p, cell, isComb, node) {
      var o :| 0 <= o < |t.outs| && Serves(arch, t, o, cell, isComb, node);
      assert Serves(arch, p, o, cell, isComb, node);
    }
  }

  lemma SatOutputsGives(net: Net, arch: Arch, s: Ble, cell: nat, cur: nat, combNum: nat)
    requires Shaped(net) && Fits(arch, s) && FlagsOk(s) && cell < |arch.cells| && cur < net.Size()
    requires SatOutputs(net, arch, s, cell, cur, combNum).Done?
    ensures Outputted(net, arch, s, SatOutputs(net, arch, s, cell, cur, combNum).ble, cell, cur, combNum)
  {
    hide SatBleOut, CombFanout, FirstLatch, OnOutput, Outputted, TookOut, NewOutsServe, SomeServes, Serves, MoreOuts,
      FlagsOk;
    var comb := CombFanout(net, cur) - combNum;
    var latch := FirstLatch(net, net.outs[cur]);
    NothingTaken(arch, s, cell, cur, latch);
    var first := SatBleOut(arch, s, true, cell, cur);
    var t := if comb > 0 then first else Some(s);
    if first.Some? {
      SatBleOutTakes(arch, s, true, cell, cur);
      TookOutServes(arch, s, s, first.value, true, cell, cur, cur, latch);
    }
    if comb == 0 && latch.None? {
      OutputtedAfterPlace(net, arch, s, first.value, cell, cur, combNum);
    } else if latch.None? {
      OutputtedAfterPlace(net, arch, s, t.value, cell, cur, combNum);
    } else {
      var second := SatBleOut(arch, t.value, false, cell, latch.value);
      if second.Some? {
        SatBleOutTakes(arch, t.value, false, cell, latch.value);
        TookOutServes(arch, s, t.value, second.value, false, cell, latch.value, cur, latch);
        if comb > 0 {
          MoreOutsKeep(t.value, second.value, cur);
        }
        OutputtedAfterPlace(net, arch, s, second.value, cell, cur, combNum);
      } else {
        OutputtedAfterPlace(net, arch, s, first.value, cell, cur, combNum);
      }
    }
  }

  lemma NothingTaken(arch: Arch, s: Ble, cell: nat, cur: nat, latch: Option<nat>)
    requires Fits(arch, s)
    ensures MoreOuts(s, s) && NewOutsServe(arch, s, s, cell, cur, latch)
  {
  }

  /** The error exits of sat_lgknd_outputs are taken on exactly these inputs. */
  lemma SatOutputsExits(net: Net, arch: Arch, s: Ble, cell: nat, cur: nat, combNum: nat)
    requires Shaped(net) && Fits(arch, s) && cell < |arch.cells| && cur < net.Size()
    ensures SatOutputs(net, arch, s, cell, cur, combNum).Exits? <==>
      combNum > CombFanout(net, cur) || (net.kind[cur] == Buf && CombFanout(net, cur) != combNum)
  {
  }
}
