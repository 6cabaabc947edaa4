/** The architecture of a BLE and the record of what is packed into one (s_ble_arch, s_ble_info). */
module BleState {
  import opened Seqs
  import opened LogicNetwork

  /** A candidate of a port: a BLE input, a BLE output, or the (first port of a) cell. */
  datatype PortRef = BleIn(input: nat) | BleOut(output: nat) | BleNd(cell: nat)

  datatype OutPort = OutPort(cands: seq<PortRef>, isComb: bool)

  /** cells[c][j] holds the candidates of port j of cell c. */
  datatype Arch = Arch(inputNum: nat, outputs: seq<OutPort>, cells: seq<seq<seq<PortRef>>>)
  {
    predicate RefOk(r: PortRef) {
      match r
      case BleIn(i) => i < inputNum
      case BleOut(o) => o < |outputs|
      case BleNd(c) => c < |cells|
    }
  }

  /** Every candidate names an existing port (spot_cand_ptr). */
  ghost predicate ArchOk(arch: Arch) {
    && (forall o, k :: 0 <= o < |arch.outputs| && 0 <= k < |arch.outputs[o].cands| ==>
      arch.RefOk(arch.outputs[o].cands[k]))
    && (forall c, j, k :: 0 <= c < |arch.cells| && 0 <= j < |arch.cells[c]| && 0 <= k < |arch.cells[c][j]|
          ==> arch.RefOk(arch.cells[c][j][k]))
  }

  datatype InSlot = InSlot(used: bool, node: Option<nat>, pin: int)
  datatype PortSlot = PortSlot(used: bool, mux: int, pin: int)
  datatype CellSlot = CellSlot(used: bool, node: Option<nat>)
  datatype OutSlot = OutSlot(used: bool, mux: int, typ: int, node: Option<nat>)

  const NO_INPUT := InSlot(false, None, -1)
  const NO_PORT := PortSlot(false, -1, -1)
  const NO_CELL := CellSlot(false, None)
  const NO_OUTPUT := OutSlot(false, -1, -1, None)

  /** A BLE input records the (node, pin) it was allocated for; the net it carries is that pin's driver. */
  datatype Ble = Ble(ins: seq<InSlot>, ports: seq<seq<PortSlot>>, cells: seq<CellSlot>, outs: seq<OutSlot>)

  ghost predicate Fits(arch: Arch, s: Ble) {
    && |s.ins| == arch.inputNum
    && |s.ports| == |s.cells| == |arch.cells|
    && (forall c :: 0 <= c < |arch.cells| ==> |s.ports[c]| == |arch.cells[c]|)
    && |s.outs| == |arch.outputs|
  }

  function Blank<T>(n: nat, x: T): (r: seq<T>)
    ensures |r| == n && forall i :: 0 <= i < n ==> r[i] == x
  {
    seq(n, i => x)
  }

  /** init_ble_info and blank_ble_info */
  function InitBle(arch: Arch): (s: Ble)
    ensures Fits(arch, s)
  {
    Ble(Blank(arch.inputNum, NO_INPUT),
        seq(|arch.cells|, c requires 0 <= c < |arch.cells| => Blank(|arch.cells[c]|, NO_PORT)),
        Blank(|arch.cells|, NO_CELL),
        Blank(|arch.outputs|, NO_OUTPUT))
  }

  function CellNodes(s: Ble): (r: seq<Option<nat>>)
    ensures |r| == |s.cells| && forall c :: 0 <= c < |r| ==> r[c] == s.cells[c].node
  {
    seq(|s.cells|, c requires 0 <= c < |s.cells| => s.cells[c].node)
  }

  function OutNodes(s: Ble): (r: seq<Option<nat>>)
    ensures |r| == |s.outs| && forall o :: 0 <= o < |r| ==> r[o] == s.outs[o].node
  {
    seq(|s.outs|, o requires 0 <= o < |s.outs| => s.outs[o].node)
  }

  /** n sits in a cell of the BLE. */
  predicate InCells(s: Ble, n: nat) { Some(n) in CellNodes(s) }

  /** n leaves the BLE on an output. */
  predicate OnOutput(s: Ble, n: nat) { Some(n) in OutNodes(s) }

  /** The net a BLE input carries. */
  function InputNet(net: Net, slot: InSlot): Option<nat>
  {
    if slot.node.Some? && slot.node.value < |net.ins| && 0 <= slot.pin < |net.ins[slot.node.value]|
    then Some(net.ins[slot.node.value][slot.pin])
    else None
  }

  /** The net print_blif writes for a port whose mux selects r. */
  function Decode(net: Net, s: Ble, r: PortRef): Option<nat>
  {
    match r
    case BleNd(c) => if c < |s.cells| then s.cells[c].node else None
    case BleIn(i) => if i < |s.ins| then InputNet(net, s.ins[i]) else None
    case BleOut(o) => if o < |s.outs| then s.outs[o].node else None
  }

  /** The net at port j of cell c. */
  function PortNet(net: Net, arch: Arch, s: Ble, c: nat, j: nat): Option<nat>
    requires Fits(arch, s) && c < |arch.cells| && j < |arch.cells[c]|
  {
    var mux := s.ports[c][j].mux;
    if 0 <= mux < |arch.cells[c][j]| then Decode(net, s, arch.cells[c][j][mux]) else None
  }
}
