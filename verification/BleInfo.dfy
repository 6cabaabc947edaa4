/** The mutable BLE record (mpack_util.c) and the output half of the solver's functions. */
module BleRecord {
  import opened Seqs
  import opened LogicNetwork
  import opened NetworkPasses
  import opened BleState
  import opened SatSpec

  class BleInfo {
    const inputs: array<InSlot>
    const ports: array<seq<PortSlot>>
    const cells: array<CellSlot>
    const outputs: array<OutSlot>

    /** init_ble_info */
    constructor (arch: Arch)
      ensures fresh(inputs) && fresh(ports) && fresh(cells) && fresh(outputs)
      ensures State() == InitBle(arch) && Apart()
    {
      inputs := new InSlot[arch.inputNum](i => NO_INPUT);
      ports := new seq<PortSlot>[|arch.cells|](c requires 0 <= c < |arch.cells| => Blank(|arch.cells[c]|, NO_PORT));
      cells := new CellSlot[|arch.cells|](c => NO_CELL);
      outputs := new OutSlot[|arch.outputs|](o => NO_OUTPUT);
      new;
      assert State() == InitBle(arch) by {
        var s := InitBle(arch);
        assert inputs[..] == s.ins && ports[..] == s.ports && cells[..] == s.cells && outputs[..] == s.outs;
      }
    }

    function State(): Ble
      reads inputs, ports, cells, outputs
    {
      Ble(inputs[..], ports[..], cells[..], outputs[..])
    }

    ghost function Arrays(): set<object> {
      {inputs as object, ports as object, cells as object, outputs as object}
    }

    /** The four arrays are different objects. */
    ghost predicate Apart() {
      && inputs as object != ports as object && inputs as object != cells as object
        && inputs as object != outputs as object
      && ports as object != cells as object && ports as object != outputs as object
        && cells as object != outputs as object
    }

    /** copy_ble_info: afterwards the two records agree, and they share no array. */
    method CopyFrom(src: BleInfo)
      requires Apart() && src.Arrays() !! Arrays()
      requires inputs.Length == src.inputs.Length && ports.Length == src.ports.Length
      requires cells.Length == src.cells.Length == ports.Length && outputs.Length == src.outputs.Length
      modifies inputs, ports, cells, outputs
      ensures State() == src.State() && src.State() == old(src.State())
    {
      for im := 0 to inputs.Length
        invariant src.State() == old(src.State())
        invariant inputs[..im] == src.inputs[..im]
      {
        inputs[im] := src.inputs[im];
      }
      for im := 0 to cells.Length
        invariant src.State() == old(src.State())
        invariant inputs[..] == src.inputs[..]
        invariant cells[..im] == src.cells[..im] && ports[..im] == src.ports[..im]
      {
        cells[im] := src.cells[im];
        ports[im] := src.ports[im];
      }
      for im := 0 to outputs.Length
        invariant src.State() == old(src.State())
        invariant inputs[..] == src.inputs[..] && cells[..] == src.cells[..] && ports[..] == src.ports[..]
        invariant outputs[..im] == src.outputs[..im]
      {
        outputs[im] := src.outputs[im];
      }
      assert outputs[..] == src.outputs[..];
    }
  }

  /** spot_lgknd_ble_cell_idx */
  method SpotCell(ble: BleInfo, n: nat) returns (r: int)
    ensures r == IndexOf(CellNodes(ble.State()), Some(n))
  {
    ghost var nodes := CellNodes(ble.State());
    for im := 0 to ble.cells.Length
      invariant forall c :: 0 <= c < im ==> nodes[c] != Some(n)
    {
      if ble.cells[im].node == Some(n) {
        return im;
      }
    }
    return -1;
  }

  /** spot_lgknd_ble_output_idx, searching all outputs */
  method SpotOutput(ble: BleInfo, n: nat) returns (r: int)
    ensures r == IndexOf(OutNodes(ble.State()), Some(n))
  {
    ghost var nodes := OutNodes(ble.State());
    for im := 0 to ble.outputs.Length
      invariant forall o :: 0 <= o < im ==> nodes[o] != Some(n)
    {
      if ble.outputs[im].node == Some(n) {
        return im;
      }
    }
    return -1;
  }

  /** The scan variables of sat_ble_out say what the choice is. */
  ghost predicate Chosen(best: Option<OutChoice>, outIdx: int, conkt: int, cost: int) {
    match best
    case None => conkt == -1 && cost == -1
    case Some(c) => outIdx == c.output && conkt == c.mux && cost == c.cost
  }

  /** The choice while output im is scanned and n of its candidates have been seen. */
  ghost function Seen(arch: Arch, s: Ble, isComb: bool, cell: nat, im: nat, n: nat): Option<OutChoice>
    requires Fits(arch, s) && im < |arch.outputs| && n <= |arch.outputs[im].cands|
  {
    var best := BestOut(arch, s, isComb, cell, im);
    if !s.outs[im].used && BleNd(cell) in arch.outputs[im].cands[..n]
       && (best.None? || best.value.cost > OutCost(arch, im, isComb))
    then Some(OutChoice(im, IndexOf(arch.outputs[im].cands, BleNd(cell)), OutCost(arch, im, isComb)))
    else best
  }

  lemma SeenOne(arch: Arch, s: Ble, isComb: bool, cell: nat, im: nat, n: nat)
    requires Fits(arch, s) && im < |arch.outputs| && n < |arch.outputs[im].cands|
    ensures var cands := arch.outputs[im].cands; var best := Seen(arch, s, isComb, cell, im, n);
      Seen(arch, s, isComb, cell, im, n + 1)
      == if !s.outs[im].used && cands[n] == BleNd(cell) && (best.None? || best.value.cost > OutCost(arch, im, isComb))
         then Some(OutChoice(im, n, OutCost(arch, im, isComb))) else best
  {
    var cands := arch.outputs[im].cands;
    assert cands[..n + 1] == cands[..n] + [cands[n]];
    if cands[n] == BleNd(cell) && BleNd(cell) !in cands[..n] {
      assert forall j :: 0 <= j < n ==> cands[j] == cands[..n][j];
      IndexOfFirst(cands, n, BleNd(cell));
    }
  }

  /** sat_ble_out */
  method AllocOut(arch: Arch, ble: BleInfo, isComb: bool, cell: nat, node: nat) returns (ok: bool)
    requires Fits(arch, ble.State()) && ble.Apart()
    modifies ble.outputs
    ensures match SatBleOut(arch, old(ble.State()), isComb, cell, node)
      case None => !ok && ble.State() == old(ble.State())
      case Some(t) => ok && ble.State() == t
  {
    ghost var s := ble.State();
    var outIdx, conkt, cost := -1, -1, -1;
    for im := 0 to |arch.outputs|
      invariant ble.State() == s && Chosen(BestOut(arch, s, isComb, cell, im), outIdx, conkt, cost)
    {
      var cands := arch.outputs[im].cands;
      assert cands[..0] == [];
      for icnd := 0 to |cands|
        invariant ble.State() == s && Chosen(Seen(arch, s, isComb, cell, im, icnd), outIdx, conkt, cost)
      {
        SeenOne(arch, s, isComb, cell, im, icnd);
        if !ble.outputs[im].used && cands[icnd] == BleNd(cell) {
          var tmpCost := |cands|;
          if isComb != arch.outputs[im].isComb {
            tmpCost := tmpCost * 2;
          }
          if cost == -1 || cost > tmpCost {
            cost, conkt, outIdx := tmpCost, icnd, im;
          }
        }
      }
      assert cands[..|cands|] == cands;
    }
    if conkt != -1 {
      ble.outputs[outIdx] := OutSlot(true, conkt, if isComb then 1 else 0, Some(node));
      assert ble.outputs[..] == s.outs[outIdx := OutSlot(true, conkt, if isComb then 1 else 0, Some(node))];
      return true;
    }
    return false;
  }

  /** The loop of sat_lgknd_outputs that counts combinational fan-out and finds the latch. */
  method ClassifyFanout(net: Net, cur: nat) returns (comb: nat, latch: Option<nat>)
    requires Shaped(net) && cur < net.Size()
    ensures comb == CombFanout(net, cur) && latch == FirstLatch(net, net.outs[cur])
  {
    var fan := net.outs[cur];
    comb, latch := 0, None;
    for im := 0 to |fan|
      invariant comb == NonLatches(net, fan[..im]) && latch == FirstLatch(net, fan[..im])
    {
      assert fan[..im + 1] == fan[..im] + [fan[im]];
      NonLatchesAppend(net, fan[..im], [fan[im]]);
      FirstLatchAppend(net, fan[..im], [fan[im]]);
      assert [fan[im]][1..] == [];
      if net.kind[fan[im]] != Latch {
        comb := comb + 1;
      } else if !net.mapped[fan[im]] {
        if latch.None? {
          latch := Some(fan[im]);
        }
      }
    }
    assert fan[..|fan|] == fan;
  }

  lemma {:induction false} FirstLatchAppend(net: Net, s: seq<nat>, t: seq<nat>)
    ensures FirstLatch(net, s + t) == if FirstLatch(net, s).Some? then FirstLatch(net, s) else FirstLatch(net, t)
  {
    if s == [] {
      assert s + t == t;
    } else {
      assert (s + t)[1..] == s[1..] + t;
      FirstLatchAppend(net, s[1..], t);
    }
  }

  datatype Verdict = Ok | Fail | Exit

  ghost predicate Matches(v: Verdict, r: Sat, now: Ble) {
    match r
    case Done(t) => v == Ok && now == t
    case Failed => v == Fail
    case Exits => v == Exit
  }

  /** sat_lgknd_outputs; a failure leaves the record half changed, which is why it is called on a copy. */
  method MapOutputs(net: Net, arch: Arch, ble: BleInfo, cell: nat, cur: nat, combNum: nat) returns (v: Verdict)
    requires Shaped(net) && Fits(arch, ble.State()) && ble.Apart() && cell < |arch.cells| && cur < net.Size()
    modifies ble.outputs, ble.cells
    ensures Matches(v, SatOutputs(net, arch, old(ble.State()), cell, cur, combNum), ble.State())
    ensures Fits(arch, ble.State())
  {
    hide SatBleOut, CombFanout, FirstLatch;
    var fanout, latch := ClassifyFanout(net, cur);
    var comb: int := fanout - combNum;
    if comb < 0 {
      return Exit;
    }
    if latch.None? && comb == 0 {
      var ok := AllocOut(arch, ble, true, cell, cur);
      if !ok {
        return Fail;
      }
      ble.cells[cell] := CellSlot(true, Some(cur));
      return Ok;
    }
    if net.kind[cur] == Buf && comb != 0 {
      return Exit;
    }
    var ret := true;
    if 0 < comb {
      var ok := AllocOut(arch, ble, true, cell, cur);
      if !ok {
        ret := false;
      }
    }
    if latch.Some? {
      var ok := AllocOut(arch, ble, false, cell, latch.value);
      if !ok {
        if net.kind[cur] == Buf {
          ret := false;
        } else if ret && 0 < comb {
          ret := true;
        } else {
          ok := AllocOut(arch, ble, true, cell, cur);
          if !ok {
            ret := false;
          }
        }
      }
    }
    if ret {
      ble.cells[cell] := CellSlot(true, Some(cur));
      return Ok;
    }
    return Fail;
  }
}
