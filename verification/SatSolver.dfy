/** The input half of the solver and mini_sat_solver itself, on the mutable record (sat_api.c). */
module SatSolver {
  import opened Seqs
  import opened LogicNetwork
  import opened NetworkPasses
  import opened BleState
  import opened SatSpec
  import opened BleRecord
  import opened BleLegality
  import opened BleOutputs
  import opened BleLegal
  import opened CombCounts

  /** sat_src_port_des_port */
  method SourceToDest(cands: seq<PortRef>, cell: nat, port: nat, des: PortRef) returns (r: int)
    ensures r == CandIndex(cands, cell, port, des)
  {
    if des == BleNd(cell) && port == 0 {
      return -1;
    }
    for icnd := 0 to |cands|
      invariant forall k :: 0 <= k < icnd ==> cands[k] != des
    {
      if des == cands[icnd] {
        IndexOfFirst(cands, icnd, des);
        return icnd;
      }
    }
    return -1;
  }

  /** sat_cell_port_target_lgknd */
  method TargetToPort(net: Net, ble: BleInfo, cands: seq<PortRef>, cell: nat, port: nat, targ: nat) returns (r: int)
    ensures r == RouteTo(net, ble.State(), cands, cell, port, targ)
  {
    hide CandIndex, CellNodes, OutNodes;
    ghost var s := ble.State();
    var pred := SpotCell(ble, targ);
    var out := SpotOutput(ble, targ);
    r := -1;
    if pred != -1 {
      r := SourceToDest(cands, cell, port, BleNd(pred));
      if r != -1 {
        return;
      }
    }
    if out != -1 {
      r := SourceToDest(cands, cell, port, BleOut(out));
      if r != -1 {
        return;
      }
    }
    if pred != -1 || out != -1 {
      return -1;
    }
    for im := 0 to ble.inputs.Length
      invariant SharedInput(net, s, cands, cell, port, targ, 0) == SharedInput(net, s, cands, cell, port, targ, im)
    {
      if ble.inputs[im].used && InputNet(net, ble.inputs[im]) == Some(targ) {
        r := SourceToDest(cands, cell, port, BleIn(im));
        if r != -1 {
          return;
        }
      }
    }
    for im := 0 to ble.inputs.Length
      invariant FreeInput(s, cands, cell, port, 0) == FreeInput(s, cands, cell, port, im)
    {
      if !ble.inputs[im].used {
        r := SourceToDest(cands, cell, port, BleIn(im));
        if r != -1 {
          return;
        }
      }
    }
    return -1;
  }

  ghost predicate PortChosen(best: Option<PortChoice>, port: int, mux: int, cost: int) {
    match best
    case None => cost == -1
    case Some(c) => port == c.port && mux == c.mux && cost == c.cost
  }

  /** sat_lgknd_input_cell_port for logically equivalent pins */
  method MapPin(net: Net, arch: Arch, ble: BleInfo, cell: nat, node: nat, pin: nat) returns (ok: bool)
    requires Shaped(net) && Fits(arch, ble.State()) && ble.Apart()
    requires cell < |arch.cells| && node < net.Size() && pin < |net.ins[node]|
    modifies ble.ports, ble.inputs
    ensures match RoutePin(net, arch, old(ble.State()), cell, node, pin)
      case None => !ok && ble.State() == old(ble.State())
      case Some(t) => ok && ble.State() == t
  {
    hide RouteTo;
    ghost var s := ble.State();
    var targ := net.ins[node][pin];
    var port, mux, cost := -1, -1, -1;
    for im := 0 to |arch.cells[cell]|
      invariant ble.State() == s && PortChosen(BestPort(net, arch, s, cell, targ, im), port, mux, cost)
    {
      if !ble.ports[cell][im].used {
        var cands := arch.cells[cell][im];
        var tmp := TargetToPort(net, ble, cands, cell, im, targ);
        if tmp != -1 {
          var tmpCost := if cands[tmp].BleNd? then |cands| / 10 else |cands|;
          if cost == -1 || tmpCost < cost {
            port, mux, cost := im, tmp, tmpCost;
          }
        }
      }
    }
    if cost == -1 {
      return false;
    }
    var row := ble.ports[cell][port := PortSlot(true, mux, pin)];
    ble.ports[cell] := row;
    var r := arch.cells[cell][port][mux];
    if r.BleIn? && r.input < ble.inputs.Length && !ble.inputs[r.input].used {
      ble.inputs[r.input] := InSlot(true, Some(node), pin);
      assert ble.inputs[..] == s.ins[r.input := InSlot(true, Some(node), pin)];
    }
    assert ble.ports[..] == s.ports[cell := row];
    return true;
  }

  /** The scan of sat_lgknd_inputs for the pin whose driver sits in the highest cell. */
  method PickPin(net: Net, ble: BleInfo, pins: seq<nat>, status: array<bool>) returns (pin: int)
    requires status.Length == |pins|
    ensures pin == NextPin(net, ble.State(), pins, status[..], |pins|).1
  {
    hide CellNodes, NextPin, IndexOf;
    ghost var s, open := ble.State(), status[..];
    var maxCell := -1;
    pin := -1;
    NextPinNone(net, s, pins, open);
    for im := 0 to |pins|
      invariant (maxCell, pin) == NextPin(net, s, pins, open, im)
    {
      NextPinStep(net, s, pins, open, im);
      if !status[im] {
        var tmp := SpotCell(ble, pins[im]);
        if maxCell == -1 || maxCell < tmp {
          maxCell := tmp;
          pin := im;
        }
      }
    }
  }

  /** sat_lgknd_inputs */
  method MapInputs(net: Net, arch: Arch, ble: BleInfo, cell: nat, node: nat) returns (ok: bool)
    requires Shaped(net) && Fits(arch, ble.State()) && ble.Apart() && cell < |arch.cells| && node < net.Size()
    modifies ble.ports, ble.inputs
    ensures Fits(arch, ble.State())
    ensures match RouteInputs(net, arch, old(ble.State()), cell, node, Blank(|net.ins[node]|, false))
      case None => !ok
      case Some(t) => ok && ble.State() == t
  {
    hide RoutePin, NextPin, Unrouted;
    ghost var s := ble.State();
    var n := |net.ins[node]|;
    var status := new bool[n](i => false);
    assert status[..] == Blank(n, false);
    var pin := PickPin(net, ble, net.ins[node], status);
    while pin != -1
      invariant fresh(status) && status.Length == n
      invariant Fits(arch, ble.State())
      invariant RouteInputs(net, arch, ble.State(), cell, node, status[..]) ==
        RouteInputs(net, arch, s, cell, node, Blank(n, false))
      invariant pin == NextPin(net, ble.State(), net.ins[node], status[..], n).1
      decreases Unrouted(status[..])
    {
      ghost var before := status[..];
      ghost var now := ble.State();
      var routed := MapPin(net, arch, ble, cell, node, pin);
      if !routed {
        return false;
      }
      status[pin] := true;
      assert status[..] == before[pin := true];
      UnroutedDrops(before, pin);
      pin := PickPin(net, ble, net.ins[node], status);
    }
    return true;
  }

  /** count_lgknds_comb_num for the i-th node of the list; the source fills all counts in one sweep. */
  method CountComb(net: Net, nodes: seq<nat>, i: nat) returns (comb: nat)
    requires Shaped(net) && i < |nodes| && forall j :: 0 <= j < |nodes| ==> nodes[j] < net.Size()
    ensures comb == PinsDriven(net, nodes[i], nodes[i + 1..])
  {
    comb := 0;
    for ind := i + 1 to |nodes|
      invariant comb == PinsDriven(net, nodes[i], nodes[i + 1..ind])
    {
      var pins := net.ins[nodes[ind]];
      ghost var start := comb;
      for im := 0 to |pins|
        invariant comb == start + Count(pins[..im], nodes[i])
      {
        assert pins[..im + 1] == pins[..im] + [pins[im]];
        CountAppend(pins[..im], [pins[im]], nodes[i]);
        assert [pins[im]][1..] == [];
        if nodes[i] == pins[im] {
          comb := comb + 1;
        }
      }
      assert pins[..|pins|] == pins;
      assert nodes[i + 1..ind + 1] == nodes[i + 1..ind] + [nodes[ind]];
      PinsDrivenAppend(net, nodes[i], nodes[i + 1..ind], [nodes[ind]]);
      assert [nodes[ind]][1..] == [];
    }
    assert nodes[i + 1..|nodes|] == nodes[i + 1..];
  }

  /** count_lgknds_comb_num_ble */
  method CountCombInBle(net: Net, ble: BleInfo, members: seq<nat>) returns (combs: seq<nat>)
    requires Shaped(net) && SlotsInRange(net, ble.State())
    requires forall j :: 0 <= j < |members| ==> members[j] < net.Size()
    ensures combs == CombNums(net, ble.State(), members)
  {
    hide PinsDriven;
    ghost var cells := ble.cells[..];
    var placed: seq<nat> := [];
    for im := 0 to ble.cells.Length
      invariant placed == PlacedNodes(cells[..im])
    {
      PlacedSnoc(cells, im);
      if ble.cells[im].used && ble.cells[im].node.Some? {
        placed := placed + [ble.cells[im].node.value];
      }
    }
    assert cells[..ble.cells.Length] == cells;
    PlacedNodesAre(cells);
    assert forall j :: 0 <= j < |placed| ==> placed[j] in placed;
    var nodes := members + placed;
    combs := [];
    for i := 0 to |members|
      invariant |combs| == i
      invariant forall j :: 0 <= j < i ==> combs[j] == CombNum(net, ble.State(), members, j)
    {
      var c := CountComb(net, nodes, i);
      assert nodes[i + 1..] == members[i + 1..] + placed;
      combs := combs + [c];
    }
  }

  lemma {:induction false} PlacedAppend(s: seq<CellSlot>, t: seq<CellSlot>)
    ensures PlacedNodes(s + t) == PlacedNodes(s) + PlacedNodes(t)
  {
    if s == [] {
      assert s + t == t;
    } else {
      assert (s + t)[1..] == s[1..] + t;
      PlacedAppend(s[1..], t);
    }
  }

  lemma PlacedSnoc(s: seq<CellSlot>, i: nat)
    requires i < |s|
    ensures PlacedNodes(s[..i + 1]) == if s[i].used && s[i].node.Some? then PlacedNodes(s[..i]) + [s[i].node.value]
      else PlacedNodes(s[..i])
  {
    assert s[..i + 1] == s[..i] + [s[i]];
    PlacedAppend(s[..i], [s[i]]);
    assert [s[i]][1..] == [];
  }

  /** The loops of mini_sat_solver that disconnect every input (free_lgknd_inputs_in_ble and after). */
  method ClearInputs(arch: Arch, ble: BleInfo)
    requires Fits(arch, ble.State()) && ble.Apart()
    modifies ble.ports, ble.inputs
    ensures ble.State() == FreeInputs(arch, old(ble.State()))
  {
    ghost var s := ble.State();
    for im := 0 to ble.cells.Length
      invariant ble.cells[..] == s.cells && ble.outputs[..] == s.outs && ble.inputs[..] == s.ins
      invariant forall c :: 0 <= c < im ==>
        ble.ports[c] == if s.cells[c].used then Blank(|s.ports[c]|, NO_PORT) else s.ports[c]
      invariant forall c :: im <= c < |s.ports| ==> ble.ports[c] == s.ports[c]
    {
      if ble.cells[im].used {
        var row: seq<PortSlot> := [];
        for j := 0 to |arch.cells[im]|
          invariant row == Blank(j, NO_PORT)
        {
          row := row + [NO_PORT];
        }
        ble.ports[im] := row;
      }
    }
    for im := 0 to ble.inputs.Length
      invariant ble.cells[..] == s.cells && ble.outputs[..] == s.outs
      invariant ble.ports[..] == FreeInputs(arch, s).ports
      invariant forall i :: 0 <= i < im ==> ble.inputs[i] == if s.ins[i].node.Some? then NO_INPUT else s.ins[i]
      invariant forall i :: im <= i < |s.ins| ==> ble.inputs[i] == s.ins[i]
    {
      if ble.inputs[im].node.Some? {
        ble.inputs[im] := NO_INPUT;
      }
    }
    assert ble.inputs[..] == FreeInputs(arch, s).ins;
  }

  /** The loop of mini_sat_solver that connects every placed node again. */
  method RemapInputs(net: Net, arch: Arch, ble: BleInfo) returns (ok: bool)
    requires Shaped(net) && Fits(arch, ble.State()) && ble.Apart()
    requires forall c :: 0 <= c < ble.cells.Length && ble.cells[c].used ==>
      ble.cells[c].node.Some? && ble.cells[c].node.value < net.Size()
    modifies ble.ports, ble.inputs
    ensures match RemapFrom(net, arch, old(ble.State()), 0)
      case None => !ok
      case Some(t) => ok && ble.State() == t
  {
    hide RouteInputs;
    ghost var s := ble.State();
    for im := 0 to |arch.cells|
      invariant Fits(arch, ble.State()) && ble.cells[..] == s.cells
      invariant RemapFrom(net, arch, ble.State(), im) == RemapFrom(net, arch, s, 0)
    {
      assert ble.cells[im] == s.cells[im];
      if ble.cells[im].used {
        var mapped := MapInputs(net, arch, ble, im, ble.cells[im].node.value);
        if !mapped {
          return false;
        }
      }
    }
    return true;
  }

  /** The output half on the scratch copy: the root first, then the other members in order. */
  method MapAllOutputs(net: Net, arch: Arch, ble: BleInfo, members: seq<nat>, idxes: seq<nat>, combs: seq<nat>)
      returns (v: Verdict)
    requires Shaped(net) && Fits(arch, ble.State()) && ble.Apart() && |idxes| == |members| == |combs| && members != []
    requires forall j :: 0 <= j < |members| ==> members[j] < net.Size() && idxes[j] < |arch.cells|
    modifies ble.outputs, ble.cells
    ensures Matches(v, AllOutputs(net, arch, old(ble.State()), members, idxes, combs), ble.State())
    ensures Fits(arch, ble.State())
  {
    hide SatOutputs;
    var root := |members| - 1;
    ghost var s := ble.State();
    v := MapOutputs(net, arch, ble, idxes[root], members[root], combs[root]);
    if v != Ok {
      return;
    }
    ghost var t := ble.State();
    for im := 0 to root
      invariant v == Ok && Fits(arch, ble.State())
      invariant OutputsFrom(net, arch, ble.State(), members, idxes, combs, im) ==
        OutputsFrom(net, arch, t, members, idxes, combs, 0)
    {
      v := MapOutputs(net, arch, ble, idxes[im], members[im], combs[im]);
      if v != Ok {
        return;
      }
    }
  }

  /** The members are all placed, so the input half finds a node in every used cell. */
  lemma PlacedInRange(net: Net, arch: Arch, s: Ble, members: seq<nat>, idxes: seq<nat>, t: Ble)
    requires Ready(net, arch, s, members, idxes)
    requires Shaped(net) && Fits(arch, s) && |idxes| == |members| && members != [] && SlotsInRange(net, s)
    requires forall j :: 0 <= j < |members| ==> members[j] < net.Size() && idxes[j] < |arch.cells|
    requires AllOutputs(net, arch, s, members, idxes, CombNums(net, s, members)) == Done(t)
    ensures forall c :: 0 <= c < |t.cells| && t.cells[c].used ==>
      t.cells[c].node.Some? && t.cells[c].node.value < net.Size()
  {
    hide AllOutputs, Legal, GoodMembers, NetOk, BufsFeedLatches, OutsOk, AllOwned, Served;
    OutputHalf(net, arch, s, members, idxes, t);
  }

  /** mini_sat_solver. Everything happens on a copy; only a success is copied back. */
  method MiniSatSolver(net: Net, arch: Arch, ble: BleInfo, members: seq<nat>, idxes: seq<nat>) returns (ok: bool)
    requires Ready(net, arch, ble.State(), members, idxes) && ble.Apart()
    requires Shaped(net) && Fits(arch, ble.State()) && |idxes| == |members| && members != []
      && SlotsInRange(net, ble.State())
    requires forall j :: 0 <= j < |members| ==> members[j] < net.Size() && idxes[j] < |arch.cells|
    modifies ble.inputs, ble.ports, ble.cells, ble.outputs
    ensures match MiniSat(net, arch, old(ble.State()), members, idxes)
      case Done(t) => ok && ble.State() == t
      case Failed => !ok && ble.State() == old(ble.State())
      case Exits => false
    ensures ok ==> Committed(net, arch, old(ble.State()), ble.State(), members, idxes)
  {
    hide Ready, AllOutputs, RemapFrom, FreeInputs, Committed, CombNums, SlotsInRange, Shaped, Fits;
    ghost var s := ble.State();
    MiniSatCommits(net, arch, s, members, idxes);
    FitsLengths(arch, s);
    var mirror := new BleInfo(arch);
    FitsLengths(arch, mirror.State());
    mirror.CopyFrom(ble);
    var combs := CountCombInBle(net, mirror, members);
    var v := MapAllOutputs(net, arch, mirror, members, idxes, combs);
    if v != Ok {
      return false;
    }
    PlacedInRange(net, arch, s, members, idxes, mirror.State());
    FreeInputsKeeps(arch, mirror.State());
    ClearInputs(arch, mirror);
    ok := RemapInputs(net, arch, mirror);
    if ok {
      FitsLengths(arch, mirror.State());
      ble.CopyFrom(mirror);
    }
  }

  lemma FitsLengths(arch: Arch, s: Ble)
    requires Fits(arch, s)
    ensures |s.ins| == arch.inputNum && |s.ports| == |s.cells| == |arch.cells| && |s.outs| == |arch.outputs|
  {
  }

  lemma FreeInputsKeeps(arch: Arch, s: Ble)
    requires Fits(arch, s)
    ensures FreeInputs(arch, s).cells == s.cells && Fits(arch, FreeInputs(arch, s))
  {
  }
}
