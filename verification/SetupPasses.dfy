/** The passes of setup_mpack.c that connect the nodes of a LUT netlist, on mutable arrays. */
module SetupPasses {
  import opened Seqs
  import opened BlifNets
  import opened BuildNets
  import opened NetworkSetup

  /** The first match, which is the only one among distinct names. */
  method PortOf(names: seq<string>, name: string) returns (r: Option<nat>)
    requires Distinct(names)
    ensures r == LastIndex(names, name)
  {
    for i := 0 to |names|
      invariant forall k :: 0 <= k < i ==> names[k] != name
    {
      if name == names[i] {
        DistinctIndex(names, i);
        return Some(i);
      }
    }
    return None;
  }

  /** What a cell's pin is connected to before output ports are passed over. */
  function RawSource(blif: Blif, nets: seq<Conkt>, name: string): nat {
    var i := Spot(nets, name);
    if i < 0 then 0
    else if nets[i].piIdx.Some? then blif.PiNode(nets[i].piIdx.value)
    else if nets[i].poIdx.Some? then blif.PoNode(nets[i].poIdx.value)
    else if nets[i].driver.Some? then NodeOf(blif, nets[i].driver.value)
    else 0
  }

  function RawSources(blif: Blif, nets: seq<Conkt>, names: seq<string>): (r: seq<nat>)
    ensures |r| == |names| && forall i :: 0 <= i < |r| ==> r[i] == RawSource(blif, nets, names[i])
  {
    seq(|names|, i requires 0 <= i < |names| => RawSource(blif, nets, names[i]))
  }

  /** The cells on the net of that name, when it is among the first i. */
  function FanBelow(blif: Blif, nets: seq<Conkt>, name: string, i: nat): seq<nat> {
    if 0 <= Spot(nets, name) < i then NodesOf(blif, nets[Spot(nets, name)].outputs) else []
  }

  /** The ports of the nets before position i are connected. */
  ghost predicate PortsUpTo(blif: Blif, nets: seq<Conkt>, ins: seq<seq<nat>>, outs: seq<seq<nat>>, i: nat) {
    && |ins| == |outs| == blif.Size()
    && (forall k {:trigger blif.pis[k]} :: 0 <= k < |blif.pis| ==> ins[blif.PiNode(k)] == [])
    && (forall k {:trigger blif.pis[k]} :: 0 <= k < |blif.pis| ==>
      outs[blif.PiNode(k)] == FanBelow(blif, nets, blif.pis[k], i))
    && (forall k {:trigger blif.pos[k]} :: 0 <= k < |blif.pos| && 0 <= Spot(nets, blif.pos[k]) < i ==>
          ins[blif.PoNode(k)] == [Source(blif, nets, blif.pos[k])])
    && (forall n :: 0 <= n < i && n < |nets| ==> nets[n].piIdx.None? || nets[n].driver.None?)
  }

  /** The cells before v are connected, with pins still on output ports. */
  ghost predicate CellsUpTo(blif: Blif, nets: seq<Conkt>, ins: seq<seq<nat>>, outs: seq<seq<nat>>, v: nat) {
    && |ins| == |outs| == blif.Size() && v <= |blif.Cells()|
    && (forall c {:trigger ins[c]} :: 0 <= c < v ==> ins[c] == RawSources(blif, nets, blif.Cells()[c].inputs))
    && (forall c {:trigger outs[c]} :: 0 <= c < v ==> outs[c] == Sinks(blif, nets, blif.Cells()[c].output))
  }

  lemma SpotOf(blif: Blif, nets: seq<Conkt>, i: nat)
    requires Posed(blif, nets) && i < |nets|
    ensures Spot(nets, nets[i].name) == i
    ensures BuiltAt(nets[i], blif.Ins(), blif.Outs(), blif.pis, blif.pos)
    ensures (nets[i].piIdx.Some? || nets[i].driver.Some?) && !(nets[i].piIdx.Some? && nets[i].poIdx.Some?)
  {
    hide Uses, LastIndex, Distinct;
    assert Named(nets, nets[i].name);
    OneOfAName(nets, i, Spot(nets, nets[i].name));
  }

  lemma PosedParts(blif: Blif, nets: seq<Conkt>)
    requires Posed(blif, nets)
    ensures Distinct(blif.pis) && Distinct(blif.pos)
  {
    hide Built;
  }

  lemma SpotNames(nets: seq<Conkt>, name: string, i: nat)
    requires i < |nets| && Spot(nets, name) == i
    ensures nets[i].name == name
  {
    hide Spot;
  }

  class Wiring {
    var ins: seq<seq<nat>>
    var outs: seq<seq<nat>>

    constructor (blif: Blif)
      ensures ins == seq(blif.Size(), v => []) && outs == seq(blif.Size(), v => [])
    {
      ins := seq(blif.Size(), v => []);
      outs := seq(blif.Size(), v => []);
    }

    /** assign_pi_conkts and assign_po_conkts for one net; ok is false where they exit. */
    method AssignPort(blif: Blif, nets: seq<Conkt>, i: nat) returns (ok: bool)
      requires Posed(blif, nets) && i < |nets| && PortsUpTo(blif, nets, ins, outs, i)
      modifies this
      ensures ok <==> nets[i].piIdx.None? || nets[i].driver.None?
      ensures ok ==> PortsUpTo(blif, nets, ins, outs, i + 1)
    {
      hide Posed, Built, Distinct, LastIndex, Uses, Spot, Named, Source, NodesOf, PortsUpTo;
      Sized(blif, nets, ins, outs, i);
      PosedParts(blif, nets);
      SpotOf(blif, nets, i);
      var net := nets[i];
      ghost var ins0, outs0 := ins, outs;
      var pi := PortOf(blif.pis, net.name);
      if pi.Some? {
        if net.inputNum != 0 {
          return false;
        }
        outs := outs[blif.PiNode(pi.value) := NodesOf(blif, net.outputs)];
        PortsNext(blif, nets, i, ins0, outs0, ins, outs);
        return true;
      }
      var po := PortOf(blif.pos, net.name);
      if po.Some? {
        if net.inputNum != 1 {
          assert false;
        }
        SourceIsDriver(blif, nets, i);
        ins := ins[blif.PoNode(po.value) := [NodeOf(blif, net.driver.value)]];
        outs := outs[blif.PoNode(po.value) := NodesOf(blif, net.outputs)];
      }
      PortsNext(blif, nets, i, ins0, outs0, ins, outs);
      ok := true;
    }

    /** The first round of assign_conkts_to_luts: all ports. */
    method AssignPorts(blif: Blif, nets: seq<Conkt>) returns (ok: bool)
      requires Posed(blif, nets) && ins == seq(blif.Size(), v => []) && outs == seq(blif.Size(), v => [])
      modifies this
      ensures ok <==> Proper(blif, nets)
      ensures ok ==> PortsUpTo(blif, nets, ins, outs, |nets|)
    {
      hide Posed, PortsUpTo, Proper;
      NothingConnected(blif, nets, ins, outs);
      for i := 0 to |nets|
        invariant PortsUpTo(blif, nets, ins, outs, i)
      {
        ok := AssignPort(blif, nets, i);
        if !ok {
          NotProper(blif, nets, i);
          return;
        }
      }
      IsProper(blif, nets, ins, outs);
      ok := true;
    }

    /** One cell of assign_lut_conkts or assign_lut_latch_conkts. */
    method AssignCell(blif: Blif, nets: seq<Conkt>, v: nat)
      requires Proper(blif, nets) && v < |blif.Cells()| && PortsUpTo(blif, nets, ins, outs, |nets|)
        && CellsUpTo(blif, nets, ins, outs, v)
      modifies this
      ensures PortsUpTo(blif, nets, ins, outs, |nets|) && CellsUpTo(blif, nets, ins, outs, v + 1)
    {
      hide Proper, Built, Distinct, LastIndex, Uses, Named, Source;
      ghost var ins0, outs0 := ins, outs;
      var cell := blif.Cells()[v];
      AllPinsNamed(blif, nets, v);
      var row: seq<nat> := [];
      for im := 0 to |cell.inputs|
        invariant ins == ins0 && outs == outs0
        invariant |row| == im && forall k :: 0 <= k < im ==> row[k] == RawSource(blif, nets, cell.inputs[k])
      {
        var i := Spot(nets, cell.inputs[im]);
        ghost var at := NetAt(blif, nets, cell.inputs[im]);
        var net := nets[i];
        if net.piIdx.Some? {
          row := row + [blif.PiNode(net.piIdx.value)];
        } else if net.poIdx.Some? {
          row := row + [blif.PoNode(net.poIdx.value)];
        } else {
          row := row + [NodeOf(blif, net.driver.value)];
        }
      }
      CellNamed(blif, nets, v);
      var o := Spot(nets, cell.output);
      var fan := NodesOf(blif, nets[o].outputs);
      if nets[o].poIdx.Some? {
        fan := fan + [blif.PoNode(nets[o].poIdx.value)];
      }
      ins := ins[v := row];
      outs := outs[v := fan];
      PortsKept(blif, nets, ins0, outs0, v, row, fan);
      assert ins[v] == RawSources(blif, nets, cell.inputs);
      assert outs[v] == Sinks(blif, nets, cell.output);
    }

    /** assign_lut_conkts, then assign_lut_latch_conkts. */
    method AssignCells(blif: Blif, nets: seq<Conkt>)
      requires Proper(blif, nets) && PortsUpTo(blif, nets, ins, outs, |nets|)
      modifies this
      ensures PortsUpTo(blif, nets, ins, outs, |nets|) && CellsUpTo(blif, nets, ins, outs, |blif.Cells()|)
    {
      hide Proper, PortsUpTo;
      assert |ins| == |outs| == blif.Size() by { Sized(blif, nets, ins, outs, |nets|); }
      for igate := 0 to |blif.gates|
        invariant PortsUpTo(blif, nets, ins, outs, |nets|) && CellsUpTo(blif, nets, ins, outs, igate)
      {
        AssignCell(blif, nets, igate);
      }
      for ilatch := 0 to |blif.latches|
        invariant PortsUpTo(blif, nets, ins, outs, |nets|) && CellsUpTo(blif, nets, ins, outs, |blif.gates| + ilatch)
      {
        AssignCell(blif, nets, |blif.gates| + ilatch);
      }
    }

    /** assign_libgate_latch_conkt_po: a pin on an output port moves to what drives the port. */
    method PassOverPorts(blif: Blif, nets: seq<Conkt>)
      requires Proper(blif, nets) && PortsUpTo(blif, nets, ins, outs, |nets|)
        && CellsUpTo(blif, nets, ins, outs, |blif.Cells()|)
      modifies this`ins
      ensures |ins| == blif.Size()
      ensures forall v {:trigger ins[v]} :: 0 <= v < blif.Size() ==>
        ins[v] == if v < |blif.Cells()| then Sources(blif, nets, blif.Cells()[v].inputs) else old(ins[v])
    {
      hide Proper, Built, Source, RawSource, Named, Spot;
      ghost var before := ins;
      for v := 0 to |blif.Cells()|
        invariant |ins| == blif.Size()
        invariant forall c {:trigger ins[c]} :: 0 <= c < blif.Size() ==>
          ins[c] == if c < v then Sources(blif, nets, blif.Cells()[c].inputs) else before[c]
      {
        PassCell(blif, nets, v);
      }
    }

    method PassCell(blif: Blif, nets: seq<Conkt>, v: nat)
      requires Proper(blif, nets) && PortsConnected(blif, nets, ins) && v < |blif.Cells()|
      requires ins[v] == RawSources(blif, nets, blif.Cells()[v].inputs)
      modifies this`ins
      ensures ins == old(ins)[v := Sources(blif, nets, blif.Cells()[v].inputs)]
    {
      hide Proper, Source, RawSource, Named, Spot;
      ghost var names := blif.Cells()[v].inputs;
      ghost var before := ins;
      AllPinsNamed(blif, nets, v);
      for ip := 0 to |ins[v]|
        invariant |ins| == |before| && |ins[v]| == |names|
        invariant forall c :: 0 <= c < |ins| && c != v ==> ins[c] == before[c]
        invariant forall k :: 0 <= k < |names| ==>
          ins[v][k] == if k < ip then Source(blif, nets, names[k]) else before[v][k]
      {
        PassPin(blif, nets, before, names[ip]);
        if ins[v][ip] >= blif.PoNode(0) {
          var pre := ins[ins[v][ip]][0];
          var row := ins[v][ip := pre];
          ins := ins[v := row];
        }
      }
      assert ins[v] == Sources(blif, nets, names);
    }

    /** clear_po_outputs */
    method ClearPoOutputs(blif: Blif)
      requires |outs| == blif.Size()
      modifies this`outs
      ensures |outs| == blif.Size()
      ensures forall v {:trigger outs[v]} :: 0 <= v < blif.Size() ==>
        outs[v] == if v < blif.PoNode(0) then old(outs[v]) else []
    {
      for im := 0 to |blif.pos|
        invariant |outs| == blif.Size()
        invariant forall v {:trigger outs[v]} :: 0 <= v < blif.Size() ==>
          outs[v] == if v < blif.PoNode(0) || v >= blif.PoNode(im) then old(outs[v]) else []
      {
        outs := outs[blif.PoNode(im) := []];
      }
    }

    /** assign_lut_logic_nodes: the passes in order leave the network of the specification, or exit
        exactly when a cell drives a primary input. */
    method Assign(blif: Blif, nets: seq<Conkt>) returns (ok: bool)
      requires Posed(blif, nets) && ins == seq(blif.Size(), v => []) && outs == seq(blif.Size(), v => [])
      modifies this
      ensures ok <==> Proper(blif, nets)
      ensures ok ==> |blif.isBuf| == |blif.gates| && ins == Network(blif, nets).ins && outs == Network(blif, nets).outs
    {
      hide Posed, Proper, NodeIns, NodeOuts, Sources, Sinks, Source, NodesOf;
      ok := AssignPorts(blif, nets);
      if !ok {
        return;
      }
      AssignCells(blif, nets);
      ghost var ins0, outs0 := ins, outs;
      PassOverPorts(blif, nets);
      ClearPoOutputs(blif);
      BufFlags(blif, nets);
      forall v: nat | v < blif.Size() ensures ins[v] == NodeIns(blif, nets, v) && outs[v] == NodeOuts(blif, nets, v) {
        FinalRow(blif, nets, ins0, outs0, ins[v], outs[v], v);
      }
    }
  }

  lemma BufFlags(blif: Blif, nets: seq<Conkt>)
    requires Posed(blif, nets)
    ensures |blif.isBuf| == |blif.gates|
  {
    hide Built, Distinct;
  }

  lemma Sized(blif: Blif, nets: seq<Conkt>, ins: seq<seq<nat>>, outs: seq<seq<nat>>, i: nat)
    requires PortsUpTo(blif, nets, ins, outs, i)
    ensures |ins| == |outs| == blif.Size()
  {
  }

  lemma SpotElsewhere(blif: Blif, nets: seq<Conkt>, i: nat)
    requires Posed(blif, nets) && i < |nets|
    ensures forall k {:trigger blif.pis[k]} :: 0 <= k < |blif.pis| ==>
      (Spot(nets, blif.pis[k]) == i <==> nets[i].piIdx == Some(k))
    ensures forall k {:trigger blif.pos[k]} :: 0 <= k < |blif.pos| ==>
      (Spot(nets, blif.pos[k]) == i <==> nets[i].poIdx == Some(k))
  {
    hide Posed, Distinct, Uses, LastIndex;
    PosedParts(blif, nets);
    SpotOf(blif, nets, i);
    forall k | 0 <= k < |blif.pis| ensures Spot(nets, blif.pis[k]) == i <==> nets[i].piIdx == Some(k) {
      DistinctIndex(blif.pis, k);
    }
    forall k | 0 <= k < |blif.pos| ensures Spot(nets, blif.pos[k]) == i <==> nets[i].poIdx == Some(k) {
      DistinctIndex(blif.pos, k);
    }
  }

  lemma SourceIsDriver(blif: Blif, nets: seq<Conkt>, i: nat)
    requires Posed(blif, nets) && i < |nets| && nets[i].poIdx.Some?
    ensures nets[i].driver.Some? && nets[i].piIdx.None? && nets[i].poIdx.value < |blif.pos|
    ensures blif.pos[nets[i].poIdx.value] == nets[i].name
    ensures Source(blif, nets, nets[i].name) == NodeOf(blif, nets[i].driver.value)
  {
    hide Posed, Uses;
    SpotOf(blif, nets, i);
  }

  lemma CellNamed(blif: Blif, nets: seq<Conkt>, v: nat)
    requires Proper(blif, nets) && v < |blif.Cells()|
    ensures 0 <= Spot(nets, blif.Cells()[v].output) < |nets|
  {
    OutNamed(blif, nets, v);
  }

  /** Every output port hangs on its driver. */
  ghost predicate PortsConnected(blif: Blif, nets: seq<Conkt>, ins: seq<seq<nat>>) {
    && |ins| == blif.Size()
    && forall k {:trigger blif.pos[k]} :: 0 <= k < |blif.pos| && 0 <= Spot(nets, blif.pos[k]) < |nets| ==>
         ins[blif.PoNode(k)] == [Source(blif, nets, blif.pos[k])]
  }

  lemma PassPin(blif: Blif, nets: seq<Conkt>, ins: seq<seq<nat>>, name: string)
    requires Proper(blif, nets) && PortsConnected(blif, nets, ins) && Named(nets, name)
    ensures var r := RawSource(blif, nets, name);
      r < blif.Size() && (r >= blif.PoNode(0) ==> ins[r] == [Source(blif, nets, name)])
      && (r < blif.PoNode(0) ==> r == Source(blif, nets, name))
  {
    hide Proper, Uses, Named, LastIndex;
    SourceBelow(blif, nets, name);
    var i := NetAt(blif, nets, name);
    if nets[i].poIdx.Some? {
      assert blif.pos[nets[i].poIdx.value] == name;
    }
  }

  /** After the last pass every row is the one of the specification. */
  lemma FinalRow(blif: Blif, nets: seq<Conkt>, ins: seq<seq<nat>>, outs: seq<seq<nat>>, row: seq<nat>, fan: seq<nat>,
      v: nat)
    requires Proper(blif, nets) && v < blif.Size()
    requires PortsUpTo(blif, nets, ins, outs, |nets|) && CellsUpTo(blif, nets, ins, outs, |blif.Cells()|)
    requires row == if v < |blif.Cells()| then Sources(blif, nets, blif.Cells()[v].inputs) else ins[v]
    requires fan == if v < blif.PoNode(0) then outs[v] else []
    ensures row == NodeIns(blif, nets, v) && fan == NodeOuts(blif, nets, v)
  {
    hide Proper, Uses, Named, Source, Sources, Sinks, NodesOf, LastIndex;
    if v >= blif.PoNode(0) {
      var k := v - blif.PoNode(0);
      PortNamed(blif, nets, k);
      NamedSpot(nets, blif.pos[k]);
      assert ins[blif.PoNode(k)] == [Source(blif, nets, blif.pos[k])];
    } else if v >= |blif.Cells()| {
      var k := v - blif.PiNode(0);
      InputSinks(blif, nets, k);
      assert outs[blif.PiNode(k)] == FanBelow(blif, nets, blif.pis[k], |nets|) && ins[blif.PiNode(k)] == [];
    }
  }

  lemma NamedSpot(nets: seq<Conkt>, name: string)
    requires Named(nets, name)
    ensures 0 <= Spot(nets, name) < |nets|
  {
  }

  lemma NothingConnected(blif: Blif, nets: seq<Conkt>, ins: seq<seq<nat>>, outs: seq<seq<nat>>)
    requires ins == seq(blif.Size(), v => []) && outs == seq(blif.Size(), v => [])
    ensures PortsUpTo(blif, nets, ins, outs, 0)
  {
    forall k | 0 <= k < |blif.pis|
      ensures ins[blif.PiNode(k)] == [] && outs[blif.PiNode(k)] == FanBelow(blif, nets, blif.pis[k], 0)
    {
    }
  }

  lemma NotProper(blif: Blif, nets: seq<Conkt>, i: nat)
    requires i < |nets| && nets[i].piIdx.Some? && nets[i].driver.Some?
    ensures !Proper(blif, nets)
  {
    hide Posed;
  }

  lemma IsProper(blif: Blif, nets: seq<Conkt>, ins: seq<seq<nat>>, outs: seq<seq<nat>>)
    requires Posed(blif, nets) && PortsUpTo(blif, nets, ins, outs, |nets|)
    ensures Proper(blif, nets)
  {
    hide Posed;
  }

  /** One net's ports connected. */
  lemma PiPortsNext(blif: Blif, nets: seq<Conkt>, i: nat, ins: seq<seq<nat>>, outs: seq<seq<nat>>, ins': seq<seq<nat>>,
      outs': seq<seq<nat>>)
    requires Posed(blif, nets) && i < |nets| && PortsUpTo(blif, nets, ins, outs, i)
    requires nets[i].piIdx.None? || nets[i].driver.None?
    requires nets[i].piIdx.Some? ==> nets[i].piIdx.value < |blif.pis|
    requires nets[i].poIdx.Some? ==> nets[i].poIdx.value < |blif.pos|
    requires ins' == if nets[i].piIdx.None? && nets[i].poIdx.Some?
                     then ins[blif.PoNode(nets[i].poIdx.value) := [Source(blif, nets, nets[i].name)]] else ins
    requires outs' == if nets[i].piIdx.Some?
      then outs[blif.PiNode(nets[i].piIdx.value) := NodesOf(blif, nets[i].outputs)]
                      else if nets[i].poIdx.Some?
                        then outs[blif.PoNode(nets[i].poIdx.value) := NodesOf(blif, nets[i].outputs)]
                      else outs
    ensures |ins'| == |outs'| == blif.Size()
    ensures forall k :: 0 <= k < |blif.pis| ==>
      ins'[blif.PiNode(k)] == [] && outs'[blif.PiNode(k)] == FanBelow(blif, nets, blif.pis[k], i + 1)
  {
    hide Posed, NodesOf, Source, Spot, FanBelow;
    SpotElsewhere(blif, nets, i);
    forall k | 0 <= k < |blif.pis|
      ensures ins'[blif.PiNode(k)] == [] && outs'[blif.PiNode(k)] == FanBelow(blif, nets, blif.pis[k], i + 1)
    {
      FanNext(blif, nets, blif.pis[k], i);
      assert outs[blif.PiNode(k)] == FanBelow(blif, nets, blif.pis[k], i) && ins[blif.PiNode(k)] == [];
    }
  }

  lemma PortsNext(blif: Blif, nets: seq<Conkt>, i: nat, ins: seq<seq<nat>>, outs: seq<seq<nat>>, ins': seq<seq<nat>>,
      outs': seq<seq<nat>>)
    requires Posed(blif, nets) && i < |nets| && PortsUpTo(blif, nets, ins, outs, i)
    requires nets[i].piIdx.None? || nets[i].driver.None?
    requires nets[i].piIdx.Some? ==> nets[i].piIdx.value < |blif.pis|
    requires nets[i].poIdx.Some? ==> nets[i].poIdx.value < |blif.pos|
    requires ins' == if nets[i].piIdx.None? && nets[i].poIdx.Some?
                     then ins[blif.PoNode(nets[i].poIdx.value) := [Source(blif, nets, nets[i].name)]] else ins
    requires outs' == if nets[i].piIdx.Some?
      then outs[blif.PiNode(nets[i].piIdx.value) := NodesOf(blif, nets[i].outputs)]
                      else if nets[i].poIdx.Some?
                        then outs[blif.PoNode(nets[i].poIdx.value) := NodesOf(blif, nets[i].outputs)]
                      else outs
    ensures PortsUpTo(blif, nets, ins', outs', i + 1)
  {
    hide Posed, NodesOf, Source, Spot, FanBelow;
    PiPortsNext(blif, nets, i, ins, outs, ins', outs');
    SpotElsewhere(blif, nets, i);
    SpotOf(blif, nets, i);
    forall k | 0 <= k < |blif.pos| && 0 <= Spot(nets, blif.pos[k]) < i + 1
      ensures ins'[blif.PoNode(k)] == [Source(blif, nets, blif.pos[k])]
    {
      if Spot(nets, blif.pos[k]) == i {
        SpotNames(nets, blif.pos[k], i);
      }
    }
  }

  lemma FanNext(blif: Blif, nets: seq<Conkt>, name: string, i: nat)
    requires i < |nets|
    ensures FanBelow(blif, nets, name, i + 1) ==
      if Spot(nets, name) == i then NodesOf(blif, nets[i].outputs) else FanBelow(blif, nets, name, i)
  {
    hide NodesOf, Spot;
  }

  lemma PortsKept(blif: Blif, nets: seq<Conkt>, ins: seq<seq<nat>>, outs: seq<seq<nat>>, v: nat, row: seq<nat>,
      fan: seq<nat>)
    requires PortsUpTo(blif, nets, ins, outs, |nets|) && v < |blif.Cells()|
    ensures PortsUpTo(blif, nets, ins[v := row], outs[v := fan], |nets|)
  {
    hide Source, FanBelow;
    forall k | 0 <= k < |blif.pis|
      ensures ins[v := row][blif.PiNode(k)] == []
        && outs[v := fan][blif.PiNode(k)] == FanBelow(blif, nets, blif.pis[k], |nets|)
    {
      assert outs[blif.PiNode(k)] == FanBelow(blif, nets, blif.pis[k], |nets|) && ins[blif.PiNode(k)] == [];
    }
  }

  /** An input port's net is no output port's net. */
  lemma InputSinks(blif: Blif, nets: seq<Conkt>, k: nat)
    requires Proper(blif, nets) && k < |blif.pis|
    ensures var s := Spot(nets, blif.pis[k]);
      Sinks(blif, nets, blif.pis[k]) == if 0 <= s < |nets| then NodesOf(blif, nets[s].outputs) else []
  {
    hide Proper, Uses, NodesOf;
    PortsDistinct(blif, nets);
    DistinctIndex(blif.pis, k);
    if Spot(nets, blif.pis[k]) >= 0 {
      var i := NetAt(blif, nets, blif.pis[k]);
      assert NodesOf(blif, nets[i].outputs) + [] == NodesOf(blif, nets[i].outputs);
    }
  }
}
