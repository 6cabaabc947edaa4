/** The logic network that setup builds from the nets of a BLIF netlist, and why its edges agree. */
module NetworkSetup {
  import opened Seqs
  import LN = LogicNetwork
  import NP = NetworkPasses
  import opened BlifNets
  import opened BuildNets

  /** LUT netlists: gates, latches with one input, port names, and which gates are buffers. */
  datatype Blif = Blif(gates: seq<Cell>, latches: seq<Cell>, pis: seq<string>, pos: seq<string>, isBuf: seq<bool>)
  {
    function Size(): nat { |gates| + |latches| + |pis| + |pos| }
    function PiNode(i: nat): nat { |gates| + |latches| + i }
    function PoNode(i: nat): nat { |gates| + |latches| + |pis| + i }
    function Cells(): seq<Cell> { gates + latches }
    function Ins(): seq<Pin> { AllIns([], gates, latches) }
    function Outs(): seq<Pin> { AllOuts([], gates, latches) }
  }

  /** The node of a cell: gates come first, then latches. */
  function NodeOf(blif: Blif, ref: Ref): nat {
    if ref.typ == Latch then |blif.gates| + ref.idx else ref.idx
  }

  function NodesOf(blif: Blif, refs: seq<Option<Ref>>): seq<nat> {
    seq(|refs|, i requires 0 <= i < |refs| => if refs[i].Some? then NodeOf(blif, refs[i].value) else 0)
  }

  /** What setup relies on: nets built, ports distinct, every net an input or driven, none an input
      and an output, every output port on a net, and buffers and latches with one input. */
  ghost predicate Posed(blif: Blif, nets: seq<Conkt>) {
    && Built(nets, blif.Ins(), blif.Outs(), blif.pis, blif.pos)
    && Distinct(blif.pis) && Distinct(blif.pos)
    && (forall i {:trigger nets[i]} :: 0 <= i < |nets| ==> !(nets[i].piIdx.Some? && nets[i].poIdx.Some?))
    && (forall i {:trigger nets[i]} :: 0 <= i < |nets| ==> nets[i].piIdx.Some? || nets[i].driver.Some?)
    && (forall i :: 0 <= i < |blif.pos| ==> Named(nets, blif.pos[i]))
    && |blif.isBuf| == |blif.gates|
    && (forall i :: 0 <= i < |blif.gates| && blif.isBuf[i] ==> |blif.gates[i].inputs| == 1)
    && (forall i :: 0 <= i < |blif.latches| ==> |blif.latches[i].inputs| == 1)
  }

  /** The same, and no cell drives a primary input. */
  ghost predicate Proper(blif: Blif, nets: seq<Conkt>) {
    Posed(blif, nets) && forall i {:trigger nets[i]} :: 0 <= i < |nets| ==> nets[i].piIdx.None? || nets[i].driver.None?
  }

  /** The node a net comes from. */
  function Source(blif: Blif, nets: seq<Conkt>, name: string): nat {
    var i := Spot(nets, name);
    if i < 0 then 0
    else if nets[i].piIdx.Some? then blif.PiNode(nets[i].piIdx.value)
    else if nets[i].driver.Some? then NodeOf(blif, nets[i].driver.value)
    else 0
  }

  function Sources(blif: Blif, nets: seq<Conkt>, names: seq<string>): (r: seq<nat>)
    ensures |r| == |names| && forall i :: 0 <= i < |r| ==> r[i] == Source(blif, nets, names[i])
  {
    seq(|names|, i requires 0 <= i < |names| => Source(blif, nets, names[i]))
  }

  /** The nodes a net goes to. */
  function Sinks(blif: Blif, nets: seq<Conkt>, name: string): seq<nat> {
    var i := Spot(nets, name);
    if i < 0 then []
    else NodesOf(blif, nets[i].outputs) + (if nets[i].poIdx.Some? then [blif.PoNode(nets[i].poIdx.value)] else [])
  }

  function NodeIns(blif: Blif, nets: seq<Conkt>, v: nat): seq<nat>
    requires v < blif.Size()
  {
    if v < |blif.Cells()| then Sources(blif, nets, blif.Cells()[v].inputs)
    else if v < blif.PoNode(0) then []
    else [Source(blif, nets, blif.pos[v - blif.PoNode(0)])]
  }

  function NodeOuts(blif: Blif, nets: seq<Conkt>, v: nat): seq<nat>
    requires v < blif.Size()
  {
    if v < |blif.Cells()| then Sinks(blif, nets, blif.Cells()[v].output)
    else if v < blif.PoNode(0) then Sinks(blif, nets, blif.pis[v - blif.PiNode(0)])
    else []
  }

  function NodeKind(blif: Blif, v: nat): LN.Kind
    requires v < blif.Size() && |blif.isBuf| == |blif.gates|
  {
    if v < |blif.gates| then if blif.isBuf[v] then LN.Buf else LN.Gate
    else if v < |blif.Cells()| then LN.Latch
    else if v < blif.PoNode(0) then LN.Pi
    else LN.Po
  }

  function Upto(n: nat, from: nat): (r: seq<nat>)
    ensures |r| == n && forall i :: 0 <= i < n ==> r[i] == from + i
  {
    seq(n, i => from + i)
  }

  /** The network after all setup passes. */
  function Network(blif: Blif, nets: seq<Conkt>): LN.Net
    requires |blif.isBuf| == |blif.gates|
  {
    var n := blif.Size();
    LN.Net(seq(n, v requires 0 <= v < n => NodeKind(blif, v)),
           seq(n, v requires 0 <= v < n => NodeIns(blif, nets, v)),
           seq(n, v requires 0 <= v < n => NodeOuts(blif, nets, v)),
           seq(n, v => false), seq(n, v => -1), seq(n, v => -1), seq(n, v => []),
           Upto(|blif.gates|, 0), Upto(|blif.gates|, 0), Upto(|blif.latches|, |blif.gates|))
  }

  // ----- facts about nets

  /** The net of a name, with what building it promised. */
  lemma NetAt(blif: Blif, nets: seq<Conkt>, name: string) returns (i: nat)
    requires Proper(blif, nets) && Named(nets, name)
    ensures i < |nets| && i == Spot(nets, name) && nets[i].name == name
    ensures BuiltAt(nets[i], blif.Ins(), blif.Outs(), blif.pis, blif.pos)
    ensures (nets[i].piIdx.Some? <==> nets[i].driver.None?) && !(nets[i].piIdx.Some? && nets[i].poIdx.Some?)
  {
    hide Uses, Distinct, LastIndex;
    i := Spot(nets, name);
  }

  lemma UsesNil(name: string)
    ensures Uses([], name) == []
  {
  }

  lemma {:induction false} RefsOf(typ: CellType, cells: seq<Cell>, k: nat, name: string, i: nat)
    requires k <= |cells| && i < |Uses(OutPins(typ, cells, k), name)|
    ensures var r := Uses(OutPins(typ, cells, k), name)[i]; r.typ == typ && r.idx < k && cells[r.idx].output == name
  {
    hide Uses;
    UsesNil(name);
    if k > 0 {
      UsesSnoc(OutPins(typ, cells, k - 1), Pin(cells[k - 1].output, Ref(typ, k - 1)), name);
      if i < |Uses(OutPins(typ, cells, k - 1), name)| {
        RefsOf(typ, cells, k - 1, name, i);
      }
    }
  }

  /** The driver of a net is a cell that names it as its output. */
  lemma DriverDrives(blif: Blif, name: string, i: nat)
    requires i < |Uses(blif.Outs(), name)|
    ensures var r := Uses(blif.Outs(), name)[i];
      NodeOf(blif, r) < |blif.Cells()| && blif.Cells()[NodeOf(blif, r)].output == name
      && (r.typ == Gate || r.typ == Latch) && (r.typ == Gate ==> r.idx < |blif.gates|)
  {
    var g, l := OutPins(Gate, blif.gates, |blif.gates|), OutPins(Latch, blif.latches, |blif.latches|);
    assert blif.Outs() == g + l;
    UsesAppend(g, l, name);
    if i < |Uses(g, name)| {
      RefsOf(Gate, blif.gates, |blif.gates|, name, i);
    } else {
      RefsOf(Latch, blif.latches, |blif.latches|, name, i - |Uses(g, name)|);
    }
  }

  lemma {:induction false} OutPinUsed(typ: CellType, cells: seq<Cell>, k: nat, n: nat)
    requires k < n <= |cells|
    ensures Ref(typ, k) in Uses(OutPins(typ, cells, n), cells[k].output)
  {
    var x := cells[k].output;
    UsesSnoc(OutPins(typ, cells, n - 1), Pin(cells[n - 1].output, Ref(typ, n - 1)), x);
    if k < n - 1 {
      OutPinUsed(typ, cells, k, n - 1);
    }
  }

  function RefOf(blif: Blif, u: nat): Ref {
    if u < |blif.gates| then Ref(Gate, u) else Ref(Latch, u - |blif.gates|)
  }

  /** Every cell is among the drivers of the net it names as its output. */
  lemma CellDrives(blif: Blif, u: nat)
    requires u < |blif.Cells()|
    ensures RefOf(blif, u) in Uses(blif.Outs(), blif.Cells()[u].output)
  {
    var x := blif.Cells()[u].output;
    var g, l := OutPins(Gate, blif.gates, |blif.gates|), OutPins(Latch, blif.latches, |blif.latches|);
    assert blif.Outs() == g + l;
    UsesAppend(g, l, x);
    if u < |blif.gates| {
      OutPinUsed(Gate, blif.gates, u, |blif.gates|);
    } else {
      OutPinUsed(Latch, blif.latches, u - |blif.gates|, |blif.latches|);
    }
  }

  lemma DistinctIndex(names: seq<string>, i: nat)
    requires Distinct(names) && i < |names|
    ensures LastIndex(names, names[i]) == Some(i)
  {
    assert names[i] in names;
  }

  /** The name of the net a node drives. */
  function NetName(blif: Blif, u: nat): string
    requires u < blif.PoNode(0)
  {
    if u < |blif.Cells()| then blif.Cells()[u].output else blif.pis[u - blif.PiNode(0)]
  }

  lemma PortsDistinct(blif: Blif, nets: seq<Conkt>)
    requires Proper(blif, nets)
    ensures Distinct(blif.pis) && Distinct(blif.pos)
  {
    hide Distinct, Built;
  }

  /** A node is the source of a net exactly when it drives that net. */
  lemma SourceExactly(blif: Blif, nets: seq<Conkt>, name: string, u: nat)
    requires Proper(blif, nets) && Named(nets, name) && u < blif.PoNode(0)
    ensures Source(blif, nets, name) == u <==> NetName(blif, u) == name
    ensures Source(blif, nets, name) < blif.PoNode(0)
  {
    hide Uses, Proper, Distinct, Built, LastIndex, Named;
    PortsDistinct(blif, nets);
    var i := NetAt(blif, nets, name);
    var drivers := Uses(blif.Outs(), name);
    if nets[i].piIdx.Some? {
      var k := nets[i].piIdx.value;
      if u < |blif.Cells()| {
        CellDrives(blif, u);
      } else {
        DistinctIndex(blif.pis, u - blif.PiNode(0));
      }
    } else {
      DriverDrives(blif, name, 0);
      if u < |blif.Cells()| {
        CellDrives(blif, u);
        if NetName(blif, u) == name {
          assert |drivers| == 1 && RefOf(blif, u) == drivers[0];
        }
      } else {
        var k := u - blif.PiNode(0);
        assert blif.pis[k] in blif.pis;
      }
    }
  }

  // ----- edges agree

  /** How many of the first k cells' pins that name the net belong to cell v: as many as it has. */
  lemma {:induction false} CountUses(typ: CellType, cells: seq<Cell>, k: nat, name: string, v: nat)
    requires k <= |cells|
    ensures Count(Uses(InPins(typ, cells, k), name), Ref(typ, v)) == if v < k then Count(cells[v].inputs, name) else 0
  {
    hide Uses, Count, InPins, CellPins;
    if k > 0 {
      UsesOfPrefix(typ, cells, k, name, Ref(typ, v));
      CountUses(typ, cells, k - 1, name, v);
    } else {
      NoUses(typ, cells, name, Ref(typ, v));
    }
  }

  lemma NoUses(typ: CellType, cells: seq<Cell>, name: string, other: Ref)
    ensures Count(Uses(InPins(typ, cells, 0), name), other) == 0
  {
  }

  /** What one more cell adds to the uses of a name. */
  lemma UsesOfPrefix(typ: CellType, cells: seq<Cell>, k: nat, name: string, other: Ref)
    requires 0 < k <= |cells|
    ensures Count(Uses(InPins(typ, cells, k), name), other) == Count(Uses(InPins(typ, cells, k - 1), name), other)
         + if other == Ref(typ, k - 1) then Count(cells[k - 1].inputs, name) else 0
  {
    hide Uses, Count, CellPins;
    var ref := Ref(typ, k - 1);
    var pins := CellPins(cells[k - 1].inputs, ref);
    UsesAppend(InPins(typ, cells, k - 1), pins, name);
    CountAppend(Uses(InPins(typ, cells, k - 1), name), Uses(pins, name), other);
    OneCell(cells[k - 1].inputs, ref, name, other);
  }

  lemma {:induction false} OneCell(names: seq<string>, ref: Ref, name: string, other: Ref)
    ensures Count(Uses(CellPins(names, ref), name), other) == if other == ref then Count(names, name) else 0
  {
    if names != [] {
      var n := |names| - 1;
      var pins := CellPins(names, ref);
      assert pins[..n] == CellPins(names[..n], ref);
      OneCell(names[..n], ref, name, other);
      assert names == names[..n] + [names[n]];
      CountAppend(names[..n], [names[n]], name);
      CountAppend(Uses(pins[..n], name), if pins[n].name == name then [pins[n].ref] else [], other);
    }
  }

  lemma {:induction false} OtherType(typ: CellType, cells: seq<Cell>, k: nat, name: string, other: Ref)
    requires k <= |cells| && other.typ != typ
    ensures Count(Uses(InPins(typ, cells, k), name), other) == 0
  {
    hide Uses, Count, InPins, CellPins;
    if k > 0 {
      UsesOfPrefix(typ, cells, k, name, other);
      OtherType(typ, cells, k - 1, name, other);
    } else {
      NoUses(typ, cells, name, other);
    }
  }

  /** A net lists a cell as often as the cell names the net. */
  lemma ListedAsNamed(blif: Blif, name: string, v: nat)
    requires v < |blif.Cells()|
    ensures Count(Uses(blif.Ins(), name), RefOf(blif, v)) == Count(blif.Cells()[v].inputs, name)
  {
    var g, l := InPins(Gate, blif.gates, |blif.gates|), InPins(Latch, blif.latches, |blif.latches|);
    var ref := RefOf(blif, v);
    assert blif.Ins() == g + l;
    UsesAppend(g, l, name);
    CountAppend(Uses(g, name), Uses(l, name), ref);
    if v < |blif.gates| {
      CountUses(Gate, blif.gates, |blif.gates|, name, v);
      OtherType(Latch, blif.latches, |blif.latches|, name, ref);
    } else {
      CountUses(Latch, blif.latches, |blif.latches|, name, v - |blif.gates|);
      OtherType(Gate, blif.gates, |blif.gates|, name, ref);
    }
  }

  lemma {:induction false} UsesInRange(typ: CellType, cells: seq<Cell>, k: nat, name: string, i: nat)
    requires k <= |cells| && i < |Uses(InPins(typ, cells, k), name)|
    ensures Uses(InPins(typ, cells, k), name)[i].typ == typ && Uses(InPins(typ, cells, k), name)[i].idx < k
    decreases k
  {
    var pins := CellPins(cells[k - 1].inputs, Ref(typ, k - 1));
    UsesAppend(InPins(typ, cells, k - 1), pins, name);
    if i < |Uses(InPins(typ, cells, k - 1), name)| {
      UsesInRange(typ, cells, k - 1, name, i);
    } else {
      PinsOfCell(cells[k - 1].inputs, Ref(typ, k - 1), name, i - |Uses(InPins(typ, cells, k - 1), name)|);
    }
  }

  lemma {:induction false} PinsOfCell(names: seq<string>, ref: Ref, name: string, i: nat)
    requires i < |Uses(CellPins(names, ref), name)|
    ensures Uses(CellPins(names, ref), name)[i] == ref
  {
    var n := |names| - 1;
    var pins := CellPins(names, ref);
    assert pins[..n] == CellPins(names[..n], ref);
    if i < |Uses(pins[..n], name)| {
      PinsOfCell(names[..n], ref, name, i);
    }
  }

  lemma InsAre(blif: Blif)
    ensures blif.Ins() == InPins(Gate, blif.gates, |blif.gates|) + InPins(Latch, blif.latches, |blif.latches|)
  {
  }

  /** References in a net are to cells, so a node determines its reference. */
  lemma UseIsCell(blif: Blif, name: string, i: nat)
    requires i < |Uses(blif.Ins(), name)|
    ensures var r := Uses(blif.Ins(), name)[i]; NodeOf(blif, r) < |blif.Cells()| && r == RefOf(blif, NodeOf(blif, r))
  {
    hide Uses, InPins;
    var g, l := InPins(Gate, blif.gates, |blif.gates|), InPins(Latch, blif.latches, |blif.latches|);
    InsAre(blif);
    UsesAppend(g, l, name);
    if i < |Uses(g, name)| {
      UsesInRange(Gate, blif.gates, |blif.gates|, name, i);
    } else {
      UsesInRange(Latch, blif.latches, |blif.latches|, name, i - |Uses(g, name)|);
    }
  }

  /** Counting nodes is counting references. */
  lemma {:induction false} CountNodes(blif: Blif, refs: seq<Ref>, nodes: seq<nat>, v: nat)
    requires |nodes| == |refs| && forall i :: 0 <= i < |refs| ==> nodes[i] == NodeOf(blif, refs[i])
    requires forall i :: 0 <= i < |refs| ==>
      NodeOf(blif, refs[i]) < |blif.Cells()| && refs[i] == RefOf(blif, NodeOf(blif, refs[i]))
    ensures Count(nodes, v) == if v < |blif.Cells()| then Count(refs, RefOf(blif, v)) else 0
  {
    if refs != [] {
      CountNodes(blif, refs[1..], nodes[1..], v);
    }
  }

  /** Counting sources is counting names. */
  lemma {:induction false} CountSources(blif: Blif, nets: seq<Conkt>, names: seq<string>, u: nat)
    requires Proper(blif, nets) && u < blif.PoNode(0) && forall i :: 0 <= i < |names| ==> Named(nets, names[i])
    ensures Count(Sources(blif, nets, names), u) == Count(names, NetName(blif, u))
  {
    hide Proper, Source, Named;
    if names != [] {
      CountSources(blif, nets, names[1..], u);
      SourceExactly(blif, nets, names[0], u);
      assert Sources(blif, nets, names)[1..] == Sources(blif, nets, names[1..]);
    }
  }

  /** The sinks of a net: cells by their pins, and the output port it has, if any. */
  lemma CountSinks(blif: Blif, nets: seq<Conkt>, name: string, v: nat)
    requires Proper(blif, nets) && Named(nets, name) && v < blif.Size()
    ensures Count(Sinks(blif, nets, name), v)
         == if v < |blif.Cells()| then Count(blif.Cells()[v].inputs, name)
            else if v < blif.PoNode(0) then 0
            else if blif.pos[v - blif.PoNode(0)] == name then 1 else 0
  {
    hide Proper, Uses, Distinct, Named;
    PortsDistinct(blif, nets);
    var i := NetAt(blif, nets, name);
    var uses := Uses(blif.Ins(), name);
    var nodes := NodesOf(blif, nets[i].outputs);
    var port: seq<nat> := if nets[i].poIdx.Some? then [blif.PoNode(nets[i].poIdx.value)] else [];
    forall k | 0 <= k < |uses|
      ensures nodes[k] == NodeOf(blif, uses[k]) && NodeOf(blif, uses[k]) < |blif.Cells()|
        && uses[k] == RefOf(blif, NodeOf(blif, uses[k]))
    {
      UseIsCell(blif, name, k);
    }
    CountNodes(blif, uses, nodes, v);
    CountAppend(nodes, port, v);
    if v < |blif.Cells()| {
      ListedAsNamed(blif, name, v);
    } else if v >= blif.PoNode(0) {
      PortCount(blif, name, v - blif.PoNode(0));
    }
  }

  lemma PortCount(blif: Blif, name: string, k: nat)
    requires Distinct(blif.pos) && k < |blif.pos|
    ensures LastIndex(blif.pos, name) == Some(k) <==> blif.pos[k] == name
  {
    DistinctIndex(blif.pos, k);
  }

  /** Every pin of a cell names a net that was built. */
  lemma PinNamed(blif: Blif, nets: seq<Conkt>, v: nat, p: nat)
    requires Built(nets, blif.Ins(), blif.Outs(), blif.pis, blif.pos) && v < |blif.Cells()|
      && p < |blif.Cells()[v].inputs|
    ensures Named(nets, blif.Cells()[v].inputs[p])
  {
    var name := blif.Cells()[v].inputs[p];
    ListedAsNamed(blif, name, v);
    CountPositive(blif.Cells()[v].inputs, name);
  }

  lemma OutNamed(blif: Blif, nets: seq<Conkt>, v: nat)
    requires Built(nets, blif.Ins(), blif.Outs(), blif.pis, blif.pos) && v < |blif.Cells()|
    ensures Named(nets, blif.Cells()[v].output)
  {
    CellDrives(blif, v);
  }

  lemma AllPinsNamed(blif: Blif, nets: seq<Conkt>, v: nat)
    requires Proper(blif, nets) && v < |blif.Cells()|
    ensures forall p :: 0 <= p < |blif.Cells()[v].inputs| ==> Named(nets, blif.Cells()[v].inputs[p])
  {
    hide Named, Distinct;
    forall p | 0 <= p < |blif.Cells()[v].inputs| ensures Named(nets, blif.Cells()[v].inputs[p]) {
      PinNamed(blif, nets, v, p);
    }
  }

  lemma PortNamed(blif: Blif, nets: seq<Conkt>, k: nat)
    requires Proper(blif, nets) && k < |blif.pos|
    ensures Named(nets, blif.pos[k])
  {
    hide Named, Built, Distinct;
  }

  /** A source node's fan-out entries to v against v's pins. */
  lemma EdgesFromSource(blif: Blif, nets: seq<Conkt>, u: nat, v: nat)
    requires Proper(blif, nets) && u < blif.PoNode(0) && v < blif.Size()
    ensures Count(NodeOuts(blif, nets, u), v) == Count(NodeIns(blif, nets, v), u)
  {
    hide Proper, Built, Source, Named, Distinct;
    var x := NetName(blif, u);
    if Named(nets, x) {
      CountSinks(blif, nets, x, v);
    } else {
      NoNet(nets, x);
    }
    if v < |blif.Cells()| {
      AllPinsNamed(blif, nets, v);
      CountSources(blif, nets, blif.Cells()[v].inputs, u);
      CountPositive(blif.Cells()[v].inputs, x);
    } else if v >= blif.PoNode(0) {
      PortNamed(blif, nets, v - blif.PoNode(0));
      SourceExactly(blif, nets, blif.pos[v - blif.PoNode(0)], u);
      assert NodeIns(blif, nets, v)[1..] == [];
    }
  }

  lemma NoNet(nets: seq<Conkt>, name: string)
    requires !Named(nets, name)
    ensures Spot(nets, name) < 0
  {
  }

  /** Nothing comes from an output port. */
  lemma EdgesFromPort(blif: Blif, nets: seq<Conkt>, u: nat, v: nat)
    requires Proper(blif, nets) && blif.PoNode(0) <= u < blif.Size() && v < blif.Size()
    ensures u !in NodeIns(blif, nets, v)
  {
    hide Proper, Source, Named, Distinct;
    if v < |blif.Cells()| {
      AllPinsNamed(blif, nets, v);
      forall p | 0 <= p < |blif.Cells()[v].inputs| ensures NodeIns(blif, nets, v)[p] != u {
        SourceBelow(blif, nets, blif.Cells()[v].inputs[p]);
      }
    } else if v >= blif.PoNode(0) {
      PortNamed(blif, nets, v - blif.PoNode(0));
      SourceBelow(blif, nets, blif.pos[v - blif.PoNode(0)]);
    }
  }

  /** A named net comes from a cell or an input port. */
  lemma SourceBelow(blif: Blif, nets: seq<Conkt>, name: string)
    requires Proper(blif, nets) && Named(nets, name)
    ensures Source(blif, nets, name) < blif.PoNode(0)
  {
    hide Uses, Proper, Distinct, Built, Named;
    var i := NetAt(blif, nets, name);
    if nets[i].piIdx.None? {
      DriverDrives(blif, name, 0);
    }
  }

  lemma InsInRange(blif: Blif, nets: seq<Conkt>, v: nat)
    requires Proper(blif, nets) && v < blif.Size()
    ensures forall i :: 0 <= i < |NodeIns(blif, nets, v)| ==> NodeIns(blif, nets, v)[i] < blif.PoNode(0)
  {
    hide Proper, Source, Named, Distinct;
    if v < |blif.Cells()| {
      AllPinsNamed(blif, nets, v);
      forall p | 0 <= p < |blif.Cells()[v].inputs| ensures NodeIns(blif, nets, v)[p] < blif.PoNode(0) {
        SourceBelow(blif, nets, blif.Cells()[v].inputs[p]);
      }
    } else if v >= blif.PoNode(0) {
      PortNamed(blif, nets, v - blif.PoNode(0));
      SourceBelow(blif, nets, blif.pos[v - blif.PoNode(0)]);
    }
  }

  lemma SinksInRange(blif: Blif, nets: seq<Conkt>, name: string)
    requires Proper(blif, nets)
    ensures forall i :: 0 <= i < |Sinks(blif, nets, name)| ==> Sinks(blif, nets, name)[i] < blif.Size()
  {
    hide Proper, Uses, Distinct, Named;
    if Named(nets, name) {
      var n := NetAt(blif, nets, name);
      forall k | 0 <= k < |Uses(blif.Ins(), name)| ensures NodeOf(blif, Uses(blif.Ins(), name)[k]) < |blif.Cells()| {
        UseIsCell(blif, name, k);
      }
    } else {
      NoNet(nets, name);
    }
  }

  /** The network that setup builds: multiplicities agree in both directions, and the list, the gate
      array and the latch array hold the right nodes once each. */
  lemma SetupAgrees(blif: Blif, nets: seq<Conkt>)
    requires Proper(blif, nets)
    ensures |blif.isBuf| == |blif.gates|
    ensures LN.NetOk(Network(blif, nets)) && NP.ListsOk(Network(blif, nets))
  {
    hide Built, NodeIns, NodeOuts, Named, LN.Agree;
    NetworkShaped(blif, nets);
    NetworkAgrees(blif, nets);
    NetworkArity(blif, nets);
    NetworkLists(blif, nets);
  }

  /** So a netlist without combinational cycles is one the network passes and the packer start from. */
  lemma SetupPrepares(blif: Blif, nets: seq<Conkt>)
    requires Proper(blif, nets) && |blif.isBuf| == |blif.gates|
    requires LN.Shaped(Network(blif, nets)) && LN.Acyclic(Network(blif, nets))
    ensures NP.Prepared(Network(blif, nets)) && forall n :: 0 <= n < blif.Size() ==> !Network(blif, nets).mapped[n]
  {
    hide Proper, LN.NetOk, NP.ListsOk, NodeIns, NodeOuts;
    SetupAgrees(blif, nets);
  }

  lemma NetworkShaped(blif: Blif, nets: seq<Conkt>)
    requires Proper(blif, nets) && |blif.isBuf| == |blif.gates|
    ensures LN.Shaped(Network(blif, nets))
  {
    hide Proper, NodeIns, Sinks;
    var net := Network(blif, nets);
    forall v, i | 0 <= v < net.Size() && 0 <= i < |net.ins[v]| ensures net.ins[v][i] < net.Size() {
      InsInRange(blif, nets, v);
    }
    forall v, i | 0 <= v < net.Size() && 0 <= i < |net.outs[v]| ensures net.outs[v][i] < net.Size() {
      if v < blif.PoNode(0) {
        SinksInRange(blif, nets, NetName(blif, v));
      }
    }
  }

  lemma NetworkAgrees(blif: Blif, nets: seq<Conkt>)
    requires Proper(blif, nets) && |blif.isBuf| == |blif.gates| && LN.Shaped(Network(blif, nets))
    ensures LN.Agree(Network(blif, nets))
  {
    hide Proper, NodeIns, Sinks;
    var net := Network(blif, nets);
    forall u: nat, v: nat | u < net.Size() && v < net.Size() ensures Count(net.outs[u], v) == Count(net.ins[v], u) {
      if u < blif.PoNode(0) {
        EdgesFromSource(blif, nets, u, v);
      } else {
        EdgesFromPort(blif, nets, u, v);
        CountPositive(net.ins[v], u);
      }
    }
  }

  lemma NetworkArity(blif: Blif, nets: seq<Conkt>)
    requires Proper(blif, nets) && |blif.isBuf| == |blif.gates|
    ensures var net := Network(blif, nets);
      forall v {:trigger net.ins[v]} {:trigger net.outs[v]} :: 0 <= v < net.Size() ==>
        LN.ArityOk(net.kind[v], net.ins[v], net.outs[v])
  {
    hide Built, Sinks, Source, Named, Distinct;
  }

  lemma NetworkLists(blif: Blif, nets: seq<Conkt>)
    requires |blif.isBuf| == |blif.gates|
    ensures NP.ListsOk(Network(blif, nets))
  {
    hide NodeIns, NodeOuts;
    var net := Network(blif, nets);
    forall n: nat ensures n in net.list <==> net.IsGate(n) {
      if net.IsGate(n) { assert net.list[n] == n; }
    }
    forall n: nat ensures n in net.latches <==> net.IsLatch(n) {
      if net.IsLatch(n) { assert net.latches[n - |blif.gates|] == n; }
    }
  }
}
