/** build_nets and mark_pi_po_conkt on the mutable list of nets. */
module BuildNets {
  import opened Seqs
  import opened BlifNets

  /** The last position of name, as the marking loop leaves it. */
  function LastIndex(names: seq<string>, name: string): (r: Option<nat>)
    ensures r.Some? <==> name in names
    ensures r.Some? ==> r.value < |names| && names[r.value] == name
  {
    if names == [] then None
    else
      var n := |names| - 1;
      assert names == names[..n] + [names[n]];
      if names[n] == name then Some(n) else LastIndex(names[..n], name)
  }

  /** What build_nets promises of every net. */
  ghost predicate BuiltAt(n: Conkt, ins: seq<Pin>, outs: seq<Pin>, pis: seq<string>, pos: seq<string>) {
    var uses, drivers := Uses(ins, n.name), Uses(outs, n.name);
    && n.iout == n.outputNum == |n.outputs| == |uses| && (forall k :: 0 <= k < |uses| ==> n.outputs[k] == Some(uses[k]))
    && n.inputNum == |drivers| <= 1 && n.driver == (if drivers == [] then None else Some(drivers[0]))
    && n.piIdx == LastIndex(pis, n.name) && n.poIdx == LastIndex(pos, n.name)
  }

  /** One net for each name, and what every net holds. */
  ghost predicate Built(nets: seq<Conkt>, ins: seq<Pin>, outs: seq<Pin>, pis: seq<string>, pos: seq<string>) {
    && (forall i, j :: 0 <= i < j < |nets| ==> nets[i].name != nets[j].name)
    && (forall i {:trigger nets[i]} :: 0 <= i < |nets| ==> BuiltAt(nets[i], ins, outs, pis, pos))
    && (forall name :: Uses(ins, name) != [] || Uses(outs, name) != [] ==> Named(nets, name))
  }

  /** Two cells drive one net. */
  ghost predicate Clash(outs: seq<Pin>) {
    exists name :: |Uses(outs, name)| > 1
  }

  lemma ClashStays(a: seq<Pin>, b: seq<Pin>, name: string)
    requires |Uses(a, name)| > 1
    ensures Clash(a + b)
  {
    UsesAppend(a, b, name);
  }

  lemma CountedHasNoClash(nets: seq<Conkt>, ins: seq<Pin>, outs: seq<Pin>)
    requires Counted(nets, ins, outs)
    ensures !Clash(outs)
  {
    forall name ensures |Uses(outs, name)| <= 1 {
      if Uses(outs, name) != [] {
        var i :| 0 <= i < |nets| && nets[i].name == name;
        assert CountedAt(nets[i], ins, outs);
      }
    }
  }

  lemma {:induction false} SpotIs(nets: seq<Conkt>, name: string, n: nat)
    requires n < |nets| && nets[n].name == name && forall k :: 0 <= k < n ==> nets[k].name != name
    ensures Spot(nets, name) == n
  {
    if n > 0 {
      SpotIs(nets[1..], name, n - 1);
      assert nets[n].name == name && Named(nets, name);
    }
  }

  /** What the two scans go through: the input pins of libgates, then gates, then latches. */
  function AllIns(libgates: seq<Cell>, gates: seq<Cell>, latches: seq<Cell>): seq<Pin> {
    InPins(Libgate, libgates, |libgates|) + InPins(Gate, gates, |gates|) + InPins(Latch, latches, |latches|)
  }

  function AllOuts(libgates: seq<Cell>, gates: seq<Cell>, latches: seq<Cell>): seq<Pin> {
    OutPins(Libgate, libgates, |libgates|) + OutPins(Gate, gates, |gates|) + OutPins(Latch, latches, |latches|)
  }

  class NetList {
    var nets: seq<Conkt>

    constructor ()
      ensures nets == []
    {
      nets := [];
    }

    /** spot_conkt_name */
    method SpotName(name: string) returns (r: int)
      ensures r == Spot(nets, name)
    {
      for i := 0 to |nets|
        invariant forall k :: 0 <= k < i ==> nets[k].name != name
      {
        if nets[i].name == name {
          SpotIs(nets, name, i);
          return i;
        }
      }
      return -1;
    }

    /** The net of that name, made at the head of the list if there is none (ready_new_conkt). */
    method SpotOrMake(name: string) returns (i: nat)
      modifies this
      ensures nets == WithNet(old(nets), name) && i == Spot(nets, name)
    {
      var r := SpotName(name);
      if r == -1 {
        nets := [Fresh(|nets| + 1, name)] + nets;
        SpotIs(nets, name, 0);
        i := 0;
      } else {
        i := r;
      }
    }

    /** Counting one cell; ok is false where the source reports several drivers and exits. */
    method CountCell(c: Cell, ref: Ref, ghost ins: seq<Pin>, ghost outs: seq<Pin>) returns (ok: bool)
      requires Counted(nets, ins, outs)
      modifies this
      ensures ok <==> Uses(outs, c.output) == []
      ensures ok ==> Counted(nets, ins + CellPins(c.inputs, ref), outs + [Pin(c.output, ref)])
    {
      hide Counted, Uses, Spot, Named, CountUse, CountDrive, WithNet;
      ghost var pins := CellPins(c.inputs, ref);
      assert ins + pins[..0] == ins;
      for j := 0 to |c.inputs|
        invariant Counted(nets, ins + pins[..j], outs)
      {
        assert (ins + pins[..j]) + [pins[j]] == ins + pins[..j + 1];
        CountUseKeeps(nets, ins + pins[..j], outs, pins[j]);
        UseCounted(nets, c.inputs[j]);
        var i := SpotOrMake(c.inputs[j]);
        nets := nets[i := nets[i].(outputNum := nets[i].outputNum + 1)];
      }
      assert pins[..|c.inputs|] == pins;
      ghost var p := Pin(c.output, ref);
      DriveCount(nets, ins + pins, outs, p);
      DriveCounted(nets, c.output, ref);
      if Uses(outs, c.output) == [] {
        CountDriveKeeps(nets, ins + pins, outs, p);
      }
      var i := SpotOrMake(c.output);
      nets := nets[i := nets[i].(inputNum := nets[i].inputNum + 1, driver := Some(ref))];
      ok := !(nets[i].inputNum > 1);
    }

    /** The first scan over one list of cells. */
    method FirstScan(typ: CellType, cells: seq<Cell>, ghost ins: seq<Pin>, ghost outs: seq<Pin>) returns (ok: bool)
      requires Counted(nets, ins, outs)
      modifies this
      ensures ok ==> Counted(nets, ins + InPins(typ, cells, |cells|), outs + OutPins(typ, cells, |cells|))
      ensures !ok ==> Clash(outs + OutPins(typ, cells, |cells|))
    {
      hide Counted, Uses, Clash;
      assert ins + [] == ins && outs + [] == outs;
      for i := 0 to |cells|
        invariant Counted(nets, ins + InPins(typ, cells, i), outs + OutPins(typ, cells, i))
      {
        ghost var seen := outs + OutPins(typ, cells, i);
        ok := CountCell(cells[i], Ref(typ, i), ins + InPins(typ, cells, i), seen);
        if !ok {
          OutClash(typ, cells, outs, i);
          return;
        }
        assert (ins + InPins(typ, cells, i)) + CellPins(cells[i].inputs, Ref(typ, i)) ==
          ins + InPins(typ, cells, i + 1);
        assert seen + [Pin(cells[i].output, Ref(typ, i))] == outs + OutPins(typ, cells, i + 1);
      }
      ok := true;
    }

    /** The arrays are allocated. */
    method Allocate(ghost ins: seq<Pin>, ghost outs: seq<Pin>)
      requires Counted(nets, ins, outs)
      modifies this
      ensures Filled(nets, old(nets), [])
    {
      ghost var counted := nets;
      for i := 0 to |nets|
        invariant |nets| == |counted|
        invariant forall k {:trigger nets[k]} :: 0 <= k < i ==> FilledAt(nets[k], counted[k], [])
        invariant forall k :: i <= k < |nets| ==> nets[k] == counted[k]
      {
        assert CountedAt(counted[i], ins, outs);
        nets := nets[i := nets[i].(outputs := seq(nets[i].outputNum, k => None))];
      }
    }

    /** Filling in the pins of one cell. */
    method FillCell(names: seq<string>, ref: Ref, ghost counted: seq<Conkt>, ghost done: seq<Pin>,
        ghost rest: seq<Pin>, ghost outs: seq<Pin>)
      requires Counted(counted, (done + CellPins(names, ref)) + rest, outs) && Filled(nets, counted, done)
      modifies this
      ensures Filled(nets, counted, done + CellPins(names, ref))
    {
      hide Counted, Uses, Spot, Named, Filled;
      ghost var pins := CellPins(names, ref);
      assert done + pins[..0] == done;
      for j := 0 to |names|
        invariant Filled(nets, counted, done + pins[..j])
      {
        assert (done + pins[..j]) + [pins[j]] == done + pins[..j + 1];
        assert (done + pins) + rest == ((done + pins[..j]) + [pins[j]]) + (pins[j + 1..] + rest);
        FillKeeps(nets, counted, done + pins[..j], pins[j], pins[j + 1..] + rest, outs);
        var i := SpotName(names[j]);
        var row := nets[i].outputs[nets[i].iout := Some(ref)];
        nets := nets[i := nets[i].(outputs := row, iout := nets[i].iout + 1)];
      }
      assert pins[..|names|] == pins;
    }

    /** The second scan over one list of cells. */
    method SecondScan(typ: CellType, cells: seq<Cell>, ghost counted: seq<Conkt>, ghost done: seq<Pin>,
        ghost rest: seq<Pin>, ghost outs: seq<Pin>)
      requires Counted(counted, (done + InPins(typ, cells, |cells|)) + rest, outs) && Filled(nets, counted, done)
      modifies this
      ensures Filled(nets, counted, done + InPins(typ, cells, |cells|))
    {
      hide Counted, Filled, CellPins, InPins, LaterPins, Uses, Spot, Named;
      NoPinsYet(typ, cells, done);
      for i := 0 to |cells|
        invariant Filled(nets, counted, done + InPins(typ, cells, i))
      {
        AtCell(typ, cells, i, done, rest, counted, outs);
        FillCell(cells[i].inputs, Ref(typ, i), counted, done + InPins(typ, cells, i),
          LaterPins(typ, cells, i + 1) + rest, outs);
      }
    }

    /** mark_pi_po_conkt */
    method MarkPorts(pis: seq<string>, pos: seq<string>)
      modifies this
      ensures |nets| == |old(nets)|
      ensures forall i :: 0 <= i < |nets| ==> nets[i] == old(nets[i]).(piIdx := nets[i].piIdx, poIdx := nets[i].poIdx)
      ensures (forall i :: 0 <= i < |nets| ==> old(nets[i]).piIdx.None? && old(nets[i]).poIdx.None?) ==>
        forall i :: 0 <= i < |nets| ==>
          nets[i].piIdx == LastIndex(pis, nets[i].name) && nets[i].poIdx == LastIndex(pos, nets[i].name)
    {
      hide LastIndex;
      ghost var before := nets;
      for i := 0 to |nets|
        invariant |nets| == |before|
        invariant forall k :: 0 <= k < |nets| ==> nets[k] == before[k].(piIdx := nets[k].piIdx, poIdx := nets[k].poIdx)
        invariant forall k :: i <= k < |nets| ==> nets[k] == before[k]
        invariant forall k :: 0 <= k < i && before[k].piIdx.None? && before[k].poIdx.None? ==>
          nets[k].piIdx == LastIndex(pis, nets[k].name) && nets[k].poIdx == LastIndex(pos, nets[k].name)
      {
        var pi := LastOf(pis, nets[i].name);
        var po := LastOf(pos, nets[i].name);
        nets := nets[i := nets[i].(piIdx := if pi.Some? then pi else nets[i].piIdx, poIdx := if po.Some? then po
          else nets[i].poIdx)];
      }
    }

    /** build_nets: it fails exactly when two cells drive one net; otherwise names are unique, each net
        has at most one driver, every cursor stopped at its count, and each fan-out array lists exactly
        the input pins of that name, in scan order. */
    method Build(libgates: seq<Cell>, gates: seq<Cell>, latches: seq<Cell>, pis: seq<string>, pos: seq<string>)
        returns (ok: bool)
      requires nets == []
      modifies this
      ensures ok <==> !Clash(AllOuts(libgates, gates, latches))
      ensures ok ==> Built(nets, AllIns(libgates, gates, latches), AllOuts(libgates, gates, latches), pis, pos)
    {
      hide Counted, Filled, Clash, Built;
      ghost var i1, i2, i3 := InPins(Libgate, libgates, |libgates|), InPins(Gate, gates, |gates|),
          InPins(Latch, latches, |latches|);
      ghost var o1, o2, o3 := OutPins(Libgate, libgates, |libgates|), OutPins(Gate, gates, |gates|),
          OutPins(Latch, latches, |latches|);
      NothingCounted();
      assert [] + i1 == i1 && [] + o1 == o1;
      ok := FirstScan(Libgate, libgates, [], []);
      if !ok {
        ClashLater(o1, o2 + o3);
        assert o1 + (o2 + o3) == o1 + o2 + o3;
        return;
      }
      ok := FirstScan(Gate, gates, i1, o1);
      if !ok {
        ClashLater(o1 + o2, o3);
        return;
      }
      ok := FirstScan(Latch, latches, i1 + i2, o1 + o2);
      if !ok {
        return;
      }
      ghost var counted, outs := nets, o1 + o2 + o3;
      CountedHasNoClash(nets, i1 + i2 + i3, outs);
      Allocate(i1 + i2 + i3, outs);
      assert i1 + i2 + i3 == ([] + i1) + (i2 + i3) == (i1 + i2) + i3 == ((i1 + i2) + i3) + [];
      SecondScan(Libgate, libgates, counted, [], i2 + i3, outs);
      SecondScan(Gate, gates, counted, i1, i3, outs);
      SecondScan(Latch, latches, counted, i1 + i2, [], outs);
      ghost var filled := nets;
      FilledPorts(filled, counted, i1 + i2 + i3, outs);
      MarkPorts(pis, pos);
      IsBuilt(nets, filled, counted, i1 + i2 + i3, outs, pis, pos);
    }
  }

  lemma UseCounted(nets: seq<Conkt>, name: string)
    ensures var r := WithNet(nets, name);
      Spot(r, name) < |r|
        && CountUse(nets, name) == r[Spot(r, name) := r[Spot(r, name)].(outputNum := r[Spot(r, name)].outputNum + 1)]
  {
  }

  lemma DriveCounted(nets: seq<Conkt>, name: string, ref: Ref)
    ensures var r := WithNet(nets, name);
      Spot(r, name) < |r|
      && CountDrive(nets, name, ref) ==
        r[Spot(r, name) := r[Spot(r, name)].(inputNum := r[Spot(r, name)].inputNum + 1, driver := Some(ref))]
  {
  }

  lemma {:induction false} OutPinsPrefix(typ: CellType, cells: seq<Cell>, i: nat, n: nat)
    requires i <= n <= |cells|
    ensures OutPins(typ, cells, i) <= OutPins(typ, cells, n)
  {
    if i < n {
      OutPinsPrefix(typ, cells, i, n - 1);
    }
  }

  lemma OutClash(typ: CellType, cells: seq<Cell>, outs: seq<Pin>, i: nat)
    requires i < |cells| && Uses(outs + OutPins(typ, cells, i), cells[i].output) != []
    ensures Clash(outs + OutPins(typ, cells, |cells|))
  {
    hide Uses, Clash;
    var seen := outs + OutPins(typ, cells, i);
    var now := outs + OutPins(typ, cells, i + 1);
    var p := Pin(cells[i].output, Ref(typ, i));
    assert now == seen + [p];
    UsesSnoc(seen, p, p.name);
    OutPinsPrefix(typ, cells, i + 1, |cells|);
    var all := outs + OutPins(typ, cells, |cells|);
    assert all == now + OutPins(typ, cells, |cells|)[|OutPins(typ, cells, i + 1)|..];
    ClashStays(now, OutPins(typ, cells, |cells|)[|OutPins(typ, cells, i + 1)|..], p.name);
  }

  lemma ClashLater(a: seq<Pin>, b: seq<Pin>)
    requires Clash(a)
    ensures Clash(a + b)
  {
    hide Uses;
    var name :| |Uses(a, name)| > 1;
    ClashStays(a, b, name);
  }

  /** The input pins of the cells from i on. */
  ghost function LaterPins(typ: CellType, cells: seq<Cell>, i: nat): (r: seq<Pin>)
    requires i <= |cells|
    ensures InPins(typ, cells, |cells|) == InPins(typ, cells, i) + r
    decreases |cells| - i
  {
    if i == |cells| then [] else CellPins(cells[i].inputs, Ref(typ, i)) + LaterPins(typ, cells, i + 1)
  }

  lemma NoPinsYet(typ: CellType, cells: seq<Cell>, done: seq<Pin>)
    ensures done + InPins(typ, cells, 0) == done
  {
  }

  /** The pins around those of one cell. */
  lemma AtCell(typ: CellType, cells: seq<Cell>, i: nat, done: seq<Pin>, rest: seq<Pin>, counted: seq<Conkt>,
      outs: seq<Pin>)
    requires i < |cells| && Counted(counted, (done + InPins(typ, cells, |cells|)) + rest, outs)
    ensures Counted(counted,
      ((done + InPins(typ, cells, i)) + CellPins(cells[i].inputs, Ref(typ, i)))
      + (LaterPins(typ, cells, i + 1) + rest), outs)
    ensures (done + InPins(typ, cells, i)) + CellPins(cells[i].inputs, Ref(typ, i)) == done + InPins(typ, cells, i + 1)
  {
    hide CellPins, Counted;
    assert (done + InPins(typ, cells, |cells|)) + rest
        == ((done + InPins(typ, cells, i)) + CellPins(cells[i].inputs, Ref(typ, i)))
          + (LaterPins(typ, cells, i + 1) + rest);
  }

  method LastOf(names: seq<string>, name: string) returns (r: Option<nat>)
    ensures r == LastIndex(names, name)
  {
    r := None;
    for im := 0 to |names|
      invariant r == LastIndex(names[..im], name)
    {
      assert names[..im + 1][..im] == names[..im];
      if names[im] == name {
        r := Some(im);
      }
    }
    assert names[..|names|] == names;
  }

  lemma NothingCounted()
    ensures Counted([], [], [])
  {
  }

  lemma FilledPorts(nets: seq<Conkt>, counted: seq<Conkt>, ins: seq<Pin>, outs: seq<Pin>)
    requires Counted(counted, ins, outs) && Filled(nets, counted, ins)
    ensures forall i :: 0 <= i < |nets| ==> nets[i].piIdx.None? && nets[i].poIdx.None?
  {
    hide Uses;
    forall i | 0 <= i < |nets| ensures nets[i].piIdx.None? && nets[i].poIdx.None? {
      assert FilledAt(nets[i], counted[i], ins) && CountedAt(counted[i], ins, outs);
    }
  }

  lemma IsBuilt(nets: seq<Conkt>, filled: seq<Conkt>, counted: seq<Conkt>, ins: seq<Pin>, outs: seq<Pin>,
      pis: seq<string>, pos: seq<string>)
    requires Counted(counted, ins, outs) && Filled(filled, counted, ins) && |nets| == |filled|
    requires forall i :: 0 <= i < |nets| ==> nets[i] == filled[i].(piIdx := nets[i].piIdx, poIdx := nets[i].poIdx)
    requires forall i :: 0 <= i < |nets| ==>
      nets[i].piIdx == LastIndex(pis, nets[i].name) && nets[i].poIdx == LastIndex(pos, nets[i].name)
    ensures Built(nets, ins, outs, pis, pos)
  {
    hide Uses, Named, LastIndex;
    forall i | 0 <= i < |nets| ensures nets[i].name == counted[i].name && BuiltAt(nets[i], ins, outs, pis, pos) {
      assert FilledAt(filled[i], counted[i], ins) && CountedAt(counted[i], ins, outs);
    }
    forall name | Uses(ins, name) != [] || Uses(outs, name) != [] ensures Named(nets, name) {
      SpotSame(nets, counted, name);
    }
  }
}
