/** When the solver cannot refuse: patterns on a BLE with room for them, and gates on a roomy cell. */
module RoomyCells {
  import opened Seqs
  import opened LogicNetwork
  import opened NetworkPasses
  import opened BleState
  import opened SatSpec
  import opened BleLegality
  import opened BleOutputs
  import opened CombCounts
  import opened LatchOutputs
  import opened BleLegal
  import opened RouteChoices
  import opened PatternPick

  // ----- the input half

  /** A port that can select every BLE input and output. */
  ghost predicate SeesAll(arch: Arch, cands: seq<PortRef>) {
    && (forall i: nat :: i < arch.inputNum ==> BleIn(i) in cands)
    && (forall o: nat :: o < |arch.outputs| ==> BleOut(o) in cands)
  }

  function UsedPorts(s: Ble, c: nat): set<nat>
    requires c < |s.ports|
  {
    set j: nat | j < |s.ports[c]| && s.ports[c][j].used
  }

  function UsedIns(s: Ble): set<nat> { set i: nat | i < |s.ins| && s.ins[i].used }

  lemma SomeLeft(used: set<nat>, n: nat) returns (k: nat)
    requires |used| < n
    ensures k < n && k !in used
  {
    if Below(n) <= used {
      NotFewer(Below(n), used);
    }
    k :| k in Below(n) && k !in used;
  }

  lemma NotFewer(a: set<nat>, b: set<nat>)
    requires a <= b
    ensures |a| <= |b|
  {
    assert |b - a| == |b| - |a|;
  }

  /** Used cells hold nodes of the network. */
  ghost predicate Seated(net: Net, cells: seq<CellSlot>) {
    forall c :: 0 <= c < |cells| && cells[c].used ==> cells[c].node.Some? && cells[c].node.value < |net.ins|
  }

  /** The pins of the nodes in the first k cells. */
  ghost function Pins(net: Net, cells: seq<CellSlot>, k: nat): nat
    requires Seated(net, cells) && k <= |cells|
  {
    if k == 0 then 0
    else Pins(net, cells, k - 1) + if cells[k - 1].used then |net.ins[cells[k - 1].node.value]| else 0
  }

  /** The used cells have a port for every pin, each of which sees all inputs, all outputs and the other used
      cells, and there is an input for every pin; no node reads itself. */
  ghost predicate RoomFor(net: Net, arch: Arch, cells: seq<CellSlot>) {
    && |cells| == |arch.cells| && Seated(net, cells) && Pins(net, cells, |cells|) <= arch.inputNum
    && forall c :: 0 <= c < |cells| && cells[c].used ==> CellHasRoom(net, arch, cells, c)
  }

  ghost predicate CellHasRoom(net: Net, arch: Arch, cells: seq<CellSlot>, c: nat)
    requires |cells| == |arch.cells| && c < |cells|
  {
    && cells[c].node.Some? && cells[c].node.value < |net.ins|
    && var g := cells[c].node.value;
       && |net.ins[g]| <= |arch.cells[c]| && g !in net.ins[g]
       && forall j :: 0 <= j < |arch.cells[c]| ==>
            SeesAll(arch, arch.cells[c][j])
            && forall d: nat :: d < |cells| && d != c && cells[d].node.Some? ==> BleNd(d) in arch.cells[c][j]
  }

  /** Any unused port can receive any net but the gate's own, as long as an input is free. */
  lemma PortServes(net: Net, arch: Arch, s: Ble, c: nat, j: nat, targ: nat)
    requires Fits(arch, s) && c < |s.cells| && CellHasRoom(net, arch, s.cells, c) && s.cells[c].node != Some(targ)
    requires j < |arch.cells[c]| && |UsedIns(s)| < arch.inputNum
    ensures RouteTo(net, s, arch.cells[c][j], c, j, targ) != -1
  {
    var cands := arch.cells[c][j];
    var r := Serving(net, arch, s, c, j, targ);
    var k :| 0 <= k < |cands| && cands[k] == r;
    RouteToExactly(net, s, cands, c, j, targ);
  }

  lemma Serving(net: Net, arch: Arch, s: Ble, c: nat, j: nat, targ: nat) returns (r: PortRef)
    requires Fits(arch, s) && c < |s.cells| && CellHasRoom(net, arch, s.cells, c) && s.cells[c].node != Some(targ)
    requires j < |arch.cells[c]| && |UsedIns(s)| < arch.inputNum
    ensures r in arch.cells[c][j] && Rank(net, s, c, j, targ, r).Some?
  {
    if d: nat :| SitsIn(s, targ, d) {
      r := BleNd(d);
    } else if o: nat :| LeavesOn(s, targ, o) {
      r := BleOut(o);
    } else {
      var i := SomeLeft(UsedIns(s), arch.inputNum);
      r := BleIn(i);
    }
  }

  lemma PinFits(net: Net, arch: Arch, s: Ble, c: nat, g: nat, p: nat)
    requires Shaped(net) && Fits(arch, s) && c < |s.cells| && CellHasRoom(net, arch, s.cells, c)
      && s.cells[c].node == Some(g)
    requires g < net.Size() && p < |net.ins[g]| && |UsedPorts(s, c)| < |arch.cells[c]| && |UsedIns(s)| < arch.inputNum
    ensures var r := RoutePin(net, arch, s, c, g, p);
      && r.Some? && Routes(s, r.value, c)
      && |UsedPorts(r.value, c)| == |UsedPorts(s, c)| + 1 && |UsedIns(r.value)| <= |UsedIns(s)| + 1
  {
    hide RouteTo, SeesAll, Connect;
    var targ := net.ins[g][p];
    var j := SomeLeft(UsedPorts(s, c), |arch.cells[c]|);
    PortServes(net, arch, s, c, j, targ);
    BestPortIsCheapest(net, arch, s, c, targ, |arch.cells[c]|);
    Connects(arch, s, c, g, p, BestPort(net, arch, s, c, targ, |arch.cells[c]|).value);
  }

  /** Only inputs and ports of cell c differ. */
  ghost predicate Routes(s: Ble, t: Ble, c: nat) {
    && t.cells == s.cells && t.outs == s.outs && |t.ports| == |s.ports| && |t.ins| == |s.ins|
    && forall d :: 0 <= d < |s.ports| && d != c ==> t.ports[d] == s.ports[d]
  }

  lemma Connects(arch: Arch, s: Ble, c: nat, g: nat, p: nat, choice: PortChoice)
    requires Fits(arch, s) && c < |s.cells| && choice.port < |arch.cells[c]|
      && choice.mux < |arch.cells[c][choice.port]|
    requires !s.ports[c][choice.port].used
    ensures var t := Connect(arch, s, c, g, p, choice);
      && Routes(s, t, c)
      && |UsedPorts(t, c)| == |UsedPorts(s, c)| + 1 && |UsedIns(t)| <= |UsedIns(s)| + 1
  {
    var t := Connect(arch, s, c, g, p, choice);
    assert UsedPorts(t, c) == UsedPorts(s, c) + {choice.port};
    var r := arch.cells[c][choice.port][choice.mux];
    if r.BleIn? && r.input < |s.ins| && !s.ins[r.input].used {
      assert UsedIns(t) == UsedIns(s) + {r.input};
    } else {
      assert t.ins == s.ins;
    }
  }

  lemma {:induction false} PinsFit(net: Net, arch: Arch, s: Ble, c: nat, g: nat, status: seq<bool>)
    requires Shaped(net) && Fits(arch, s) && c < |s.cells| && CellHasRoom(net, arch, s.cells, c)
      && s.cells[c].node == Some(g)
    requires g < net.Size() && |status| == |net.ins[g]|
    requires |UsedPorts(s, c)| + Unrouted(status) <= |arch.cells[c]| && |UsedIns(s)| + Unrouted(status) <= arch.inputNum
    ensures var r := RouteInputs(net, arch, s, c, g, status);
      r.Some? && Routes(s, r.value, c) && |UsedIns(r.value)| <= |UsedIns(s)| + Unrouted(status)
    decreases Unrouted(status)
  {
    hide RoutePin, NextPin, CellHasRoom, UsedPorts, UsedIns;
    var p := NextPin(net, s, net.ins[g], status, |status|).1;
    if p != -1 {
      UnroutedDrops(status, p);
      PinFits(net, arch, s, c, g, p);
      PinsFit(net, arch, RoutePin(net, arch, s, c, g, p).value, c, g, status[p := true]);
    }
  }

  lemma {:induction false} AllUnrouted(n: nat)
    ensures Unrouted(Blank(n, false)) == n
  {
    if n > 0 {
      AllUnrouted(n - 1);
      assert Blank(n, false)[1..] == Blank(n - 1, false);
    }
  }

  lemma {:induction false} PinsGrow(net: Net, cells: seq<CellSlot>, j: nat, k: nat)
    requires Seated(net, cells) && j <= k <= |cells|
    ensures Pins(net, cells, j) <= Pins(net, cells, k)
  {
    if j < k {
      PinsGrow(net, cells, j, k - 1);
    }
  }

  /** Cell after cell is connected. */
  lemma {:induction false} RemapFits(net: Net, arch: Arch, s: Ble, k: nat)
    requires Shaped(net) && Fits(arch, s) && RoomFor(net, arch, s.cells) && k <= |arch.cells|
    requires |UsedIns(s)| <= Pins(net, s.cells, k)
    requires forall d :: k <= d < |arch.cells| && s.cells[d].used ==> UsedPorts(s, d) == {}
    ensures RemapFrom(net, arch, s, k).Some?
    decreases |arch.cells| - k
  {
    hide RouteInputs, CellHasRoom, UsedPorts, UsedIns;
    if k < |arch.cells| {
      if s.cells[k].used {
        var g := s.cells[k].node.value;
        CellRoom(net, arch, s.cells, k);
        AllUnrouted(|net.ins[g]|);
        PinsGrow(net, s.cells, k + 1, |s.cells|);
        PinsFit(net, arch, s, k, g, Blank(|net.ins[g]|, false));
        var t := RouteInputs(net, arch, s, k, g, Blank(|net.ins[g]|, false)).value;
        OthersUntouched(s, t, k);
        RemapFits(net, arch, t, k + 1);
      } else {
        RemapFits(net, arch, s, k + 1);
      }
    }
  }

  lemma CellRoom(net: Net, arch: Arch, cells: seq<CellSlot>, c: nat)
    requires RoomFor(net, arch, cells) && c < |cells| && cells[c].used
    ensures CellHasRoom(net, arch, cells, c) && |net.ins[cells[c].node.value]| <= |arch.cells[c]|
  {
  }

  lemma OthersUntouched(s: Ble, t: Ble, c: nat)
    requires Routes(s, t, c)
    ensures forall d :: 0 <= d < |s.ports| && d != c ==> UsedPorts(t, d) == UsedPorts(s, d)
  {
  }

  /** With all inputs taken back, every node is connected again. */
  lemma InputsFit(net: Net, arch: Arch, t: Ble)
    requires Shaped(net) && Fits(arch, t) && RoomFor(net, arch, t.cells)
    requires forall i :: 0 <= i < |t.ins| ==> (t.ins[i].used <==> t.ins[i].node.Some?)
    ensures RemapFrom(net, arch, FreeInputs(arch, t), 0).Some?
  {
    hide RemapFrom, RoomFor;
    var u := FreeInputs(arch, t);
    assert UsedIns(u) == {};
    forall d | 0 <= d < |arch.cells| && u.cells[d].used ensures UsedPorts(u, d) == {} {
    }
    assert Seated(net, u.cells) by { RoomSeats(net, arch, t.cells); }
    RemapFits(net, arch, u, 0);
  }

  lemma RoomSeats(net: Net, arch: Arch, cells: seq<CellSlot>)
    requires RoomFor(net, arch, cells)
    ensures Seated(net, cells)
  {
  }

  // ----- the output half

  function FreeOuts(arch: Arch, s: Ble, cell: nat): set<nat> {
    set o: nat | o < |s.outs| && o < |arch.outputs| && !s.outs[o].used && BleNd(cell) in arch.outputs[o].cands
  }

  lemma FreeOutsFit(arch: Arch, s: Ble, cell: nat)
    requires FreeOuts(arch, s, cell) != {}
    ensures OneFree(arch, s, cell)
  {
    var o :| o in FreeOuts(arch, s, cell);
    var k :| 0 <= k < |arch.outputs[o].cands| && arch.outputs[o].cands[k] == BleNd(cell);
    assert FreeFor(arch, s, cell, o);
  }

  /** A cell loses at most the outputs that are taken. */
  lemma FewerOuts(arch: Arch, s: Ble, t: Ble, cell: nat)
    requires KeepsOuts(s, t) && |UsedOuts(t)| <= |UsedOuts(s)| + 2
    ensures |FreeOuts(arch, t, cell)| + 2 >= |FreeOuts(arch, s, cell)|
  {
    var lost, taken := FreeOuts(arch, s, cell) - FreeOuts(arch, t, cell), UsedOuts(t) - UsedOuts(s);
    assert UsedOuts(s) <= UsedOuts(t) && FreeOuts(arch, t, cell) <= FreeOuts(arch, s, cell) && lost <= taken;
    NotFewer(lost, taken);
    assert |taken| == |UsedOuts(t)| - |UsedOuts(s)|;
    assert |lost| == |FreeOuts(arch, s, cell)| - |FreeOuts(arch, t, cell)|;
  }

  lemma {:induction false} OutputsFromFit(net: Net, arch: Arch, s: Ble, members: seq<nat>, idxes: seq<nat>,
      combs: seq<nat>, i: nat)
    requires Shaped(net) && Fits(arch, s) && |idxes| == |members| == |combs| && i < |members|
    requires forall j :: 0 <= j < |members| ==> members[j] < net.Size() && idxes[j] < |arch.cells|
    requires forall j :: 0 <= j < |members| ==> |FreeOuts(arch, s, idxes[j])| >= 2 * (|members| - 1 - i) - 1
    requires !OutputsFrom(net, arch, s, members, idxes, combs, i).Exits?
    ensures OutputsFrom(net, arch, s, members, idxes, combs, i).Done?
    decreases |members| - i
  {
    hide SatOutputs, FreeOuts, KeepsOuts, UsedOuts;
    if i < |members| - 1 {
      FreeOutsFit(arch, s, idxes[i]);
      SatOutputsExactly(net, arch, s, idxes[i], members[i], combs[i]);
      var t := SatOutputs(net, arch, s, idxes[i], members[i], combs[i]).ble;
      forall j | 0 <= j < |members| ensures |FreeOuts(arch, t, idxes[j])| >= 2 * (|members| - 2 - i) - 1 {
        FewerOuts(arch, s, t, idxes[j]);
      }
      OutputsFromFit(net, arch, t, members, idxes, combs, i + 1);
    }
  }

  lemma OutputsFit(net: Net, arch: Arch, s: Ble, members: seq<nat>, idxes: seq<nat>, combs: seq<nat>)
    requires Shaped(net) && Fits(arch, s) && |idxes| == |members| == |combs| && members != []
    requires forall j :: 0 <= j < |members| ==> members[j] < net.Size() && idxes[j] < |arch.cells|
    requires forall j :: 0 <= j < |members| ==> |FreeOuts(arch, s, idxes[j])| >= 2 * |members| - 1
    requires !AllOutputs(net, arch, s, members, idxes, combs).Exits?
    ensures AllOutputs(net, arch, s, members, idxes, combs).Done?
  {
    hide SatOutputs, FreeOuts, KeepsOuts, UsedOuts, OutputsFrom;
    var root := |members| - 1;
    FreeOutsFit(arch, s, idxes[root]);
    SatOutputsExactly(net, arch, s, idxes[root], members[root], combs[root]);
    var t := SatOutputs(net, arch, s, idxes[root], members[root], combs[root]).ble;
    forall j | 0 <= j < |members| ensures |FreeOuts(arch, t, idxes[j])| >= 2 * (|members| - 1) - 1 {
      FewerOuts(arch, s, t, idxes[j]);
    }
    OutputsFromFit(net, arch, t, members, idxes, combs, 0);
  }

  // ----- patterns and gates

  /** s with the members in their cells. */
  function SeatsAfter(cells: seq<CellSlot>, members: seq<nat>, idxes: seq<nat>): (r: seq<CellSlot>)
    requires |members| == |idxes|
    ensures |r| == |cells|
  {
    seq(|cells|, c requires 0 <= c < |cells| =>
      if c in idxes then CellSlot(true, Some(members[IndexOf(idxes, c)])) else cells[c])
  }

  /** MAIN RESULT: the solver succeeds with any pattern if for each of its cells twice as many outputs as
      there are members, less one, are free, and there is room for the pins of all nodes then in the BLE. */
  lemma PatternFits(net: Net, arch: Arch, s: Ble, members: seq<nat>, idxes: seq<nat>)
    requires Ready(net, arch, s, members, idxes) && |members| == |idxes|
    requires forall j :: 0 <= j < |idxes| ==> |FreeOuts(arch, s, idxes[j])| >= 2 * |members| - 1
    requires RoomFor(net, arch, SeatsAfter(s.cells, members, idxes))
    ensures Shaped(net) && Fits(arch, s) && members != [] && SlotsInRange(net, s)
    ensures forall j :: 0 <= j < |members| ==> members[j] < net.Size() && idxes[j] < |arch.cells|
    ensures MiniSat(net, arch, s, members, idxes).Done?
  {
    hide AllOutputs, CombNums, RemapFrom, FreeInputs, RoomFor, Ready, FreeOuts, OutSide, SeatsAfter, Served;
    ReadyFits(net, arch, s, members, idxes);
    MiniSatCommits(net, arch, s, members, idxes);
    var combs := CombNums(net, s, members);
    OutputsFit(net, arch, s, members, idxes, combs);
    var t := AllOutputs(net, arch, s, members, idxes, combs).ble;
    OutputHalf(net, arch, s, members, idxes, t);
    SameSeats(net, arch, s, t, members, idxes);
    assert Fits(arch, t) by { OutSideFits(net, arch, t); }
    InputsFit(net, arch, t);
  }

  lemma SameSeats(net: Net, arch: Arch, s: Ble, t: Ble, members: seq<nat>, idxes: seq<nat>)
    requires |members| == |idxes| && |t.cells| == |s.cells|
    requires forall i :: 0 <= i < |members| ==>
      idxes[i] < |t.cells| && t.cells[idxes[i]] == CellSlot(true, Some(members[i]))
    requires forall c :: 0 <= c < |t.cells| && c !in idxes ==> t.cells[c] == s.cells[c]
    ensures t.cells == SeatsAfter(s.cells, members, idxes)
  {
  }

  /** Cell c can be selected by some output, has n ports and the BLE has n inputs, and every port of the cell
      can select every BLE input and output. */
  ghost predicate Roomy(arch: Arch, c: nat, n: nat) {
    && c < |arch.cells| && n <= |arch.cells[c]| && n <= arch.inputNum
    && OneFree(arch, InitBle(arch), c)
    && forall j :: 0 <= j < |arch.cells[c]| ==> SeesAll(arch, arch.cells[c][j])
  }

  /** So on a roomy cell of a blank BLE it places every gate. */
  lemma GateFits(net: Net, arch: Arch, c: nat, g: nat)
    requires Prepared(net) && BufsFeedLatches(net) && net.IsGate(g) && Shaped(net) && Roomy(arch, c, |net.ins[g]|)
    ensures SlotsInRange(net, InitBle(arch)) && MiniSat(net, arch, InitBle(arch), [g], [c]).Done?
  {
    hide MiniSat, Roomy, ListsOk, BufsFeedLatches, Agree, ArityOk, FreeOuts, RoomFor, Legal, InCells, SeatsAfter;
    RoomyFree(arch, c, |net.ins[g]|);
    NotItsOwnInput(net, g);
    BlankIsLegal(net, arch);
    InCellsIs(InitBle(arch), g);
    assert Ready(net, arch, InitBle(arch), [g], [c]);
    OneSeat(net, arch, c, g);
    PatternFits(net, arch, InitBle(arch), [g], [c]);
  }

  lemma OneSeat(net: Net, arch: Arch, c: nat, g: nat)
    requires Shaped(net) && net.IsGate(g) && Roomy(arch, c, |net.ins[g]|) && g !in net.ins[g]
    ensures RoomFor(net, arch, SeatsAfter(InitBle(arch).cells, [g], [c])) && |FreeOuts(arch, InitBle(arch), c)| >= 1
  {
    hide SeesAll;
    var cells := SeatsAfter(InitBle(arch).cells, [g], [c]);
    assert [c][0] == c && IndexOf([c], c) == 0;
    assert forall d :: 0 <= d < |cells| && d != c ==> cells[d] == NO_CELL;
    PinsOfOne(net, cells, c, g, |cells|);
    var o: nat :| FreeFor(arch, InitBle(arch), c, o);
    assert o in FreeOuts(arch, InitBle(arch), c);
  }

  lemma {:induction false} PinsOfOne(net: Net, cells: seq<CellSlot>, c: nat, g: nat, k: nat)
    requires c < |cells| && k <= |cells| && cells[c] == CellSlot(true, Some(g)) && g < |net.ins|
    requires forall d :: 0 <= d < |cells| && d != c ==> cells[d] == NO_CELL
    ensures Seated(net, cells) && Pins(net, cells, k) == if k > c then |net.ins[g]| else 0
  {
    if k > 0 {
      PinsOfOne(net, cells, c, g, k - 1);
    }
  }

  lemma RoomyFree(arch: Arch, c: nat, n: nat)
    requires Roomy(arch, c, n)
    ensures OneFree(arch, InitBle(arch), c) && c < |arch.cells|
  {
  }

  lemma NotItsOwnInput(net: Net, g: nat)
    requires Shaped(net) && Acyclic(net) && net.IsGate(g)
    ensures g !in net.ins[g]
  {
    var rk :| Ranked(net, rk);
    forall i | 0 <= i < |net.ins[g]| ensures net.ins[g][i] != g {
      assert rk[net.ins[g][i]] < rk[g];
    }
  }
}
