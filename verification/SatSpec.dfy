/** What the mini SAT solver of the packer computes, as functions on the BLE record (sat_api.c). */
module SatSpec {
  import opened Seqs
  import opened LogicNetwork
  import opened NetworkPasses
  import opened BleState

  // ----- BLE outputs

  datatype OutChoice = OutChoice(output: nat, mux: nat, cost: nat)

  /** What taking output o for the cell costs; a type mismatch doubles it. */
  function OutCost(arch: Arch, o: nat, isComb: bool): nat
    requires o < |arch.outputs|
  {
    |arch.outputs[o].cands| * if isComb == arch.outputs[o].isComb then 1 else 2
  }

  /** Output o is free and can select the cell. */
  predicate OutFits(arch: Arch, s: Ble, cell: nat, o: nat)
    requires Fits(arch, s) && o < |arch.outputs|
  {
    !s.outs[o].used && BleNd(cell) in arch.outputs[o].cands
  }

  /** The cheapest free output below n that reaches the cell, the earlier one on a tie. */
  function BestOut(arch: Arch, s: Ble, isComb: bool, cell: nat, n: nat): (r: Option<OutChoice>)
    requires Fits(arch, s) && n <= |arch.outputs|
    ensures r.Some? ==> r.value.output < n && r.value.mux < |arch.outputs[r.value.output].cands|
  {
    if n == 0 then None
    else
      var best := BestOut(arch, s, isComb, cell, n - 1);
      if OutFits(arch, s, cell, n - 1) && (best.None? || best.value.cost > OutCost(arch, n - 1, isComb))
      then Some(OutChoice(n - 1, IndexOf(arch.outputs[n - 1].cands, BleNd(cell)), OutCost(arch, n - 1, isComb)))
      else best
  }

  lemma {:induction false} BestOutIsCheapest(arch: Arch, s: Ble, isComb: bool, cell: nat, n: nat)
    requires Fits(arch, s) && n <= |arch.outputs|
    ensures var r := BestOut(arch, s, isComb, cell, n);
      && (r.None? <==> forall o :: 0 <= o < n ==> !OutFits(arch, s, cell, o))
      && (r.Some? ==>
            && OutFits(arch, s, cell, r.value.output)
            && arch.outputs[r.value.output].cands[r.value.mux] == BleNd(cell)
            && r.value.cost == OutCost(arch, r.value.output, isComb)
            && forall o :: 0 <= o < n && OutFits(arch, s, cell, o) ==>
                 OutCost(arch, r.value.output, isComb) <= OutCost(arch, o, isComb)
                 && (o < r.value.output ==> OutCost(arch, r.value.output, isComb) < OutCost(arch, o, isComb)))
  {
    if n != 0 {
      BestOutIsCheapest(arch, s, isComb, cell, n - 1);
    }
  }

  /** sat_ble_out: an output for the node in the cell, or None. */
  function SatBleOut(arch: Arch, s: Ble, isComb: bool, cell: nat, node: nat): (r: Option<Ble>)
    requires Fits(arch, s)
    ensures r.Some? ==> Fits(arch, r.value)
  {
    match BestOut(arch, s, isComb, cell, |arch.outputs|)
    case None => None
    case Some(c) => Some(s.(outs := s.outs[c.output := OutSlot(true, c.mux, if isComb then 1 else 0, Some(node))]))
  }

  /** The latch sat_lgknd_outputs serves: the first fan-out latch that is not mapped yet. */
  function FirstLatch(net: Net, s: seq<nat>): (r: Option<nat>)
    ensures r.Some? ==> r.value in s && net.IsLatch(r.value)
    ensures r.Some? && r.value < |net.mapped| ==> !net.mapped[r.value]
  {
    if s == [] then None
    else if net.IsLatch(s[0]) && s[0] < |net.mapped| && !net.mapped[s[0]] then Some(s[0])
    else FirstLatch(net, s[1..])
  }

  lemma {:induction false} FirstLatchNone(net: Net, s: seq<nat>)
    requires FirstLatch(net, s).None?
    ensures forall i :: 0 <= i < |s| && net.IsLatch(s[i]) && s[i] < |net.mapped| ==> net.mapped[s[i]]
  {
    if s != [] {
      FirstLatchNone(net, s[1..]);
      assert forall i :: 1 <= i < |s| ==> s[i] == s[1..][i - 1];
    }
  }

  predicate OpenLatchAt(net: Net, s: seq<nat>, i: nat) {
    i < |s| && net.IsLatch(s[i]) && s[i] < |net.mapped| && !net.mapped[s[i]]
  }

  /** It is the first of them. */
  lemma {:induction false} FirstLatchIsFirst(net: Net, s: seq<nat>) returns (i: nat)
    ensures FirstLatch(net, s).None? ==> forall j: nat :: !OpenLatchAt(net, s, j)
    ensures FirstLatch(net, s).Some? && FirstLatch(net, s).value < |net.mapped| ==>
      OpenLatchAt(net, s, i) && s[i] == FirstLatch(net, s).value && forall j: nat :: j < i ==> !OpenLatchAt(net, s, j)
  {
    i := 0;
    if s != [] && !OpenLatchAt(net, s, 0) {
      var k := FirstLatchIsFirst(net, s[1..]);
      i := k + 1;
      forall j: nat ensures OpenLatchAt(net, s, j) <==> j > 0 && OpenLatchAt(net, s[1..], j - 1) {
      }
    }
  }

  /** Done carries the new record; Failed undoes the whole attempt; Exits stands for exit(1) or abort. */
  datatype Sat = Done(ble: Ble) | Failed | Exits

  function Place(s: Ble, cell: nat, node: nat): Ble
    requires cell < |s.cells|
  {
    s.(cells := s.cells[cell := CellSlot(true, Some(node))])
  }

  /** sat_lgknd_outputs: combNum of the fan-out pins are inside the BLE. */
  function SatOutputs(net: Net, arch: Arch, s: Ble, cell: nat, cur: nat, combNum: nat): (r: Sat)
    requires Shaped(net) && Fits(arch, s) && cell < |arch.cells| && cur < net.Size()
    ensures r.Done? ==> Fits(arch, r.ble)
  {
    var comb := CombFanout(net, cur) - combNum;
    var latch := FirstLatch(net, net.outs[cur]);
    var isBuf := net.kind[cur] == Buf;
    if comb < 0 then Exits
    else if comb == 0 && latch.None? then
      match SatBleOut(arch, s, true, cell, cur)
      case None => Failed
      case Some(t) => Done(Place(t, cell, cur))
    else if isBuf && comb != 0 then Exits
    else
      var t := if comb > 0 then SatBleOut(arch, s, true, cell, cur) else Some(s);
      match t
      case None => Failed
      case Some(t) =>
        if latch.None? then Done(Place(t, cell, cur))
        else
          match SatBleOut(arch, t, false, cell, latch.value)
          case Some(u) => Done(Place(u, cell, cur))
          case None =>
            if isBuf then Failed
            else if comb > 0 then Done(Place(t, cell, cur))
            else
              match SatBleOut(arch, t, true, cell, cur)
              case None => Failed
              case Some(u) => Done(Place(u, cell, cur))
  }

  // ----- cell inputs

  /** sat_src_port_des_port for port `port` of cell `cell`: a port cannot select itself. */
  function CandIndex(cands: seq<PortRef>, cell: nat, port: nat, des: PortRef): (r: int)
    ensures -1 <= r < |cands| && (r >= 0 ==> cands[r] == des)
  {
    if des == BleNd(cell) && port == 0 then -1 else IndexOf(cands, des)
  }

  /** The first used input from i on that carries targ and that the port can select. */
  function SharedInput(net: Net, s: Ble, cands: seq<PortRef>, cell: nat, port: nat, targ: nat, i: nat): (r: int)
    ensures -1 <= r < |cands|
    ensures r >= 0 ==> cands[r].BleIn? && cands[r].input < |s.ins| && s.ins[cands[r].input].used
                       && InputNet(net, s.ins[cands[r].input]) == Some(targ)
    decreases |s.ins| - i
  {
    if i >= |s.ins| then -1
    else if s.ins[i].used && InputNet(net, s.ins[i]) == Some(targ) && CandIndex(cands, cell, port, BleIn(i)) != -1
    then CandIndex(cands, cell, port, BleIn(i))
    else SharedInput(net, s, cands, cell, port, targ, i + 1)
  }

  /** The first free input from i on that the port can select. */
  function FreeInput(s: Ble, cands: seq<PortRef>, cell: nat, port: nat, i: nat): (r: int)
    ensures -1 <= r < |cands|
    ensures r >= 0 ==> cands[r].BleIn? && cands[r].input < |s.ins| && !s.ins[cands[r].input].used
    decreases |s.ins| - i
  {
    if i >= |s.ins| then -1
    else if !s.ins[i].used && CandIndex(cands, cell, port, BleIn(i)) != -1
    then CandIndex(cands, cell, port, BleIn(i))
    else FreeInput(s, cands, cell, port, i + 1)
  }

  /** sat_cell_port_target_lgknd: the mux setting that brings targ to the port, or -1. A net made in
      the BLE comes from its cell or its output and never through a BLE input. */
  function RouteTo(net: Net, s: Ble, cands: seq<PortRef>, cell: nat, port: nat, targ: nat): (r: int)
    ensures -1 <= r < |cands|
  {
    var pred := IndexOf(CellNodes(s), Some(targ));
    var out := IndexOf(OutNodes(s), Some(targ));
    var byCell := if pred >= 0 then CandIndex(cands, cell, port, BleNd(pred)) else -1;
    var byOut := if out >= 0 then CandIndex(cands, cell, port, BleOut(out)) else -1;
    if byCell != -1 then byCell
    else if byOut != -1 then byOut
    else if pred >= 0 || out >= 0 then -1
    else
      var shared := SharedInput(net, s, cands, cell, port, targ, 0);
      if shared != -1 then shared else FreeInput(s, cands, cell, port, 0)
  }

  datatype PortChoice = PortChoice(port: nat, mux: nat, cost: nat)

  /** A selection inside the BLE is charged a tenth, rounded down. */
  function PortCost(cands: seq<PortRef>, mux: nat): nat
    requires mux < |cands|
  {
    if cands[mux].BleNd? then |cands| / 10 else |cands|
  }

  /** The cheapest unused port below n of the cell that can receive targ, the earlier one on a tie. */
  function BestPort(net: Net, arch: Arch, s: Ble, cell: nat, targ: nat, n: nat): (r: Option<PortChoice>)
    requires Fits(arch, s) && cell < |arch.cells| && n <= |arch.cells[cell]|
    ensures r.Some? ==> r.value.port < n && r.value.mux < |arch.cells[cell][r.value.port]|
                        && !s.ports[cell][r.value.port].used
                        && RouteTo(net, s, arch.cells[cell][r.value.port], cell, r.value.port, targ) == r.value.mux
  {
    if n == 0 then None
    else
      var best := BestPort(net, arch, s, cell, targ, n - 1);
      var cands := arch.cells[cell][n - 1];
      var mux := RouteTo(net, s, cands, cell, n - 1, targ);
      if !s.ports[cell][n - 1].used && mux != -1 && (best.None? || PortCost(cands, mux) < best.value.cost)
      then Some(PortChoice(n - 1, mux, PortCost(cands, mux)))
      else best
  }

  lemma {:induction false} BestPortIsCheapest(net: Net, arch: Arch, s: Ble, cell: nat, targ: nat, n: nat)
    requires Fits(arch, s) && cell < |arch.cells| && n <= |arch.cells[cell]|
    ensures var r := BestPort(net, arch, s, cell, targ, n);
      && (r.None? <==> forall j: nat :: j < n && !s.ports[cell][j].used ==>
            RouteTo(net, s, arch.cells[cell][j], cell, j, targ) == -1)
      && (r.Some? ==>
            && r.value.cost == PortCost(arch.cells[cell][r.value.port], r.value.mux)
            && forall j: nat ::
                 j < n && !s.ports[cell][j].used && RouteTo(net, s, arch.cells[cell][j], cell, j, targ) != -1
                 ==> var cost := PortCost(arch.cells[cell][j], RouteTo(net, s, arch.cells[cell][j], cell, j, targ));
                     r.value.cost <= cost && (j < r.value.port ==> r.value.cost < cost))
  {
    hide RouteTo, PortCost;
    if n != 0 {
      BestPortIsCheapest(net, arch, s, cell, targ, n - 1);
    }
  }

  /** The record once port c.port of the cell takes the driver of the node's pin. */
  function Connect(arch: Arch, s: Ble, cell: nat, node: nat, pin: nat, c: PortChoice): (r: Ble)
    requires Fits(arch, s) && cell < |arch.cells| && c.port < |arch.cells[cell]| && c.mux < |arch.cells[cell][c.port]|
    ensures Fits(arch, r)
  {
    var row := s.ports[cell][c.port := PortSlot(true, c.mux, pin)];
    var t := s.(ports := s.ports[cell := row]);
    match arch.cells[cell][c.port][c.mux]
    case BleIn(i) => if i < |s.ins| && !s.ins[i].used then t.(ins := s.ins[i := InSlot(true, Some(node), pin)]) else t
    case BleOut(_) => t
    case BleNd(_) => t
  }

  /** sat_lgknd_input_cell_port for logically equivalent pins */
  function RoutePin(net: Net, arch: Arch, s: Ble, cell: nat, node: nat, pin: nat): (r: Option<Ble>)
    requires Shaped(net) && Fits(arch, s) && cell < |arch.cells| && node < net.Size() && pin < |net.ins[node]|
    ensures r.Some? ==> Fits(arch, r.value)
  {
    match BestPort(net, arch, s, cell, net.ins[node][pin], |arch.cells[cell]|)
    case None => None
    case Some(c) => Some(Connect(arch, s, cell, node, pin, c))
  }

  /** The scan that picks the next pin: (cell index of its driver or -1, pin or -1). */
  function NextPin(net: Net, s: Ble, pins: seq<nat>, status: seq<bool>, n: nat): (r: (int, int))
    requires |status| == |pins| && n <= |pins|
    ensures r.1 == -1 ==> r.0 == -1
    ensures r.1 == -1 <==> forall j :: 0 <= j < n ==> status[j]
    ensures r.1 != -1 ==> 0 <= r.1 < n && !status[r.1] && r.0 == IndexOf(CellNodes(s), Some(pins[r.1]))
  {
    if n == 0 then (-1, -1)
    else
      var best := NextPin(net, s, pins, status, n - 1);
      var c := IndexOf(CellNodes(s), Some(pins[n - 1]));
      if !status[n - 1] && (best.0 == -1 || best.0 < c) then (c, n - 1) else best
  }

  lemma NextPinNone(net: Net, s: Ble, pins: seq<nat>, status: seq<bool>)
    requires |status| == |pins|
    ensures NextPin(net, s, pins, status, 0) == (-1, -1)
  {
  }

  lemma NextPinStep(net: Net, s: Ble, pins: seq<nat>, status: seq<bool>, n: nat)
    requires |status| == |pins| && n < |pins|
    ensures var best := NextPin(net, s, pins, status, n);
      var c := IndexOf(CellNodes(s), Some(pins[n]));
      NextPin(net, s, pins, status, n + 1) == if !status[n] && (best.0 == -1 || best.0 < c) then (c, n) else best
  {
    hide CellNodes, IndexOf;
  }

  function Unrouted(status: seq<bool>): nat {
    if status == [] then 0 else (if status[0] then 0 else 1) + Unrouted(status[1..])
  }

  lemma {:induction false} UnroutedDrops(status: seq<bool>, p: nat)
    requires p < |status| && !status[p]
    ensures Unrouted(status) == Unrouted(status[p := true]) + 1
  {
    if p == 0 {
      assert status[0 := true][1..] == status[1..];
    } else {
      assert status[p := true][1..] == status[1..][p - 1 := true];
      UnroutedDrops(status[1..], p - 1);
    }
  }

  /** sat_lgknd_inputs, with status telling which pins are routed already. */
  function RouteInputs(net: Net, arch: Arch, s: Ble, cell: nat, node: nat, status: seq<bool>): (r: Option<Ble>)
    requires Shaped(net) && Fits(arch, s) && cell < |arch.cells| && node < net.Size() && |status| == |net.ins[node]|
    ensures r.Some? ==> Fits(arch, r.value)
    decreases Unrouted(status)
  {
    var p := NextPin(net, s, net.ins[node], status, |status|).1;
    if p == -1 then Some(s)
    else
      match RoutePin(net, arch, s, cell, node, p)
      case None => None
      case Some(t) =>
        UnroutedDrops(status, p);
        RouteInputs(net, arch, t, cell, node, status[p := true])
  }

  // ----- the whole solver

  /** Pins of the nodes in ms that x drives: the inner count of count_lgknds_comb_num. */
  function PinsDriven(net: Net, x: nat, ms: seq<nat>): nat
    requires Shaped(net) && forall i :: 0 <= i < |ms| ==> ms[i] < net.Size()
  {
    if ms == [] then 0
    else
      assert ms[0] < net.Size();
      Count(net.ins[ms[0]], x) + PinsDriven(net, x, ms[1..])
  }

  function PlacedNodes(cells: seq<CellSlot>): seq<nat> {
    if cells == [] then []
    else (if cells[0].used && cells[0].node.Some? then [cells[0].node.value] else []) + PlacedNodes(cells[1..])
  }

  /** count_lgknds_comb_num_ble: what the i-th new node drives among the later new nodes and the
      nodes already in the BLE. */
  function CombNum(net: Net, s: Ble, members: seq<nat>, i: nat): nat
    requires Shaped(net) && i < |members|
    requires forall j :: 0 <= j < |members| ==> members[j] < net.Size()
    requires forall c :: 0 <= c < |s.cells| && s.cells[c].node.Some? ==> s.cells[c].node.value < net.Size()
  {
    PlacedNodesAre(s.cells);
    assert forall j :: 0 <= j < |PlacedNodes(s.cells)| ==> PlacedNodes(s.cells)[j] in PlacedNodes(s.cells);
    PinsDriven(net, members[i], members[i + 1..] + PlacedNodes(s.cells))
  }

  lemma {:induction false} PlacedNodesAre(cells: seq<CellSlot>)
    ensures forall n :: n in PlacedNodes(cells) <==>
      exists c :: 0 <= c < |cells| && cells[c].used && cells[c].node == Some(n)
  {
    if cells != [] {
      PlacedNodesAre(cells[1..]);
      var r := PlacedNodes(cells);
      forall n
        ensures n in r <==> exists c :: 0 <= c < |cells| && cells[c].used && cells[c].node == Some(n)
      {
        if n in PlacedNodes(cells[1..]) {
          var c :| 0 <= c < |cells[1..]| && cells[1..][c].used && cells[1..][c].node == Some(n);
          assert cells[c + 1].used && cells[c + 1].node == Some(n);
        }
        if c :| 0 <= c < |cells| && cells[c].used && cells[c].node == Some(n) {
          if c > 0 {
            assert cells[1..][c - 1].used && cells[1..][c - 1].node == Some(n);
          }
        }
      }
    }
  }

  /** The remaining new nodes get their outputs in order. */
  function OutputsFrom(net: Net, arch: Arch, s: Ble, members: seq<nat>, idxes: seq<nat>, combs: seq<nat>,
      i: nat): (r: Sat)
    requires Shaped(net) && Fits(arch, s) && |idxes| == |members| == |combs| && i < |members|
    requires forall j :: 0 <= j < |members| ==> members[j] < net.Size() && idxes[j] < |arch.cells|
    ensures r.Done? ==> Fits(arch, r.ble)
    decreases |members| - i
  {
    if i == |members| - 1 then Done(s)
    else
      match SatOutputs(net, arch, s, idxes[i], members[i], combs[i])
      case Done(t) => OutputsFrom(net, arch, t, members, idxes, combs, i + 1)
      case Failed => Failed
      case Exits => Exits
  }

  /** First the root, which is the last member, then the others. */
  function AllOutputs(net: Net, arch: Arch, s: Ble, members: seq<nat>, idxes: seq<nat>, combs: seq<nat>): (r: Sat)
    requires Shaped(net) && Fits(arch, s) && |idxes| == |members| == |combs| && members != []
    requires forall j :: 0 <= j < |members| ==> members[j] < net.Size() && idxes[j] < |arch.cells|
    ensures r.Done? ==> Fits(arch, r.ble)
  {
    var root := |members| - 1;
    match SatOutputs(net, arch, s, idxes[root], members[root], combs[root])
    case Done(t) => OutputsFrom(net, arch, t, members, idxes, combs, 0)
    case Failed => Failed
    case Exits => Exits
  }

  /** Every input of a placed node is disconnected. */
  function FreeInputs(arch: Arch, s: Ble): (r: Ble)
    requires Fits(arch, s)
    ensures Fits(arch, r)
  {
    s.(ports := seq(|s.ports|, c requires 0 <= c < |s.ports| =>
                  if s.cells[c].used then Blank(|s.ports[c]|, NO_PORT) else s.ports[c]),
       ins := seq(|s.ins|, i requires 0 <= i < |s.ins| => if s.ins[i].node.Some? then NO_INPUT else s.ins[i]))
  }

  /** Every placed node from cell c on is connected again. */
  function RemapFrom(net: Net, arch: Arch, s: Ble, c: nat): (r: Option<Ble>)
    requires Shaped(net) && Fits(arch, s) && c <= |arch.cells|
    ensures r.Some? ==> Fits(arch, r.value)
    decreases |arch.cells| - c
  {
    if c == |arch.cells| then Some(s)
    else if s.cells[c].used && s.cells[c].node.Some? && s.cells[c].node.value < net.Size() then
      var node := s.cells[c].node.value;
      match RouteInputs(net, arch, s, c, node, Blank(|net.ins[node]|, false))
      case None => None
      case Some(t) => RemapFrom(net, arch, t, c + 1)
    else RemapFrom(net, arch, s, c + 1)
  }

  function CombNums(net: Net, s: Ble, members: seq<nat>): (r: seq<nat>)
    requires Shaped(net)
    requires forall j :: 0 <= j < |members| ==> members[j] < net.Size()
    requires forall c :: 0 <= c < |s.cells| && s.cells[c].node.Some? ==> s.cells[c].node.value < net.Size()
    ensures |r| == |members|
  {
    seq(|members|, i requires 0 <= i < |members| => CombNum(net, s, members, i))
  }

  /** mini_sat_solver: the record to commit, or failure, or the error exit. */
  function MiniSat(net: Net, arch: Arch, s: Ble, members: seq<nat>, idxes: seq<nat>): (r: Sat)
    requires Shaped(net) && Fits(arch, s) && |idxes| == |members| && members != []
    requires forall j :: 0 <= j < |members| ==> members[j] < net.Size() && idxes[j] < |arch.cells|
    requires forall c :: 0 <= c < |s.cells| && s.cells[c].node.Some? ==> s.cells[c].node.value < net.Size()
    ensures r.Done? ==> Fits(arch, r.ble)
  {
    match AllOutputs(net, arch, s, members, idxes, CombNums(net, s, members))
    case Failed => Failed
    case Exits => Exits
    case Done(t) =>
      match RemapFrom(net, arch, FreeInputs(arch, t), 0)
      case None => Failed
      case Some(u) => Done(u)
  }
}
