/** The main facts about one run of mini_sat_solver. */
module BleLegal {
  import opened Seqs
  import opened LogicNetwork
  import opened NetworkPasses
  import opened BleState
  import opened SatSpec
  import opened BleLegality
  import opened BleOutputs
  import opened CombCounts
  import opened BleInputs
  import opened LatchOutputs

  /** No net is lost: everything the node drives but latches is in the BLE, or an output carries it. */
  ghost predicate NetKept(net: Net, s: Ble, x: nat)
    requires Shaped(net) && x < net.Size()
  {
    OnOutput(s, x) || forall f :: f in net.outs[x] && !net.IsLatch(f) ==> InCells(s, f)
  }

  /** A legal packing of one BLE. */
  ghost predicate Legal(net: Net, arch: Arch, s: Ble)
    requires Shaped(net)
  {
    && OutSide(net, arch, s)
    && InputsOk(net, s)
    && (forall c :: 0 <= c < |arch.cells| ==> CellRouted(net, arch, s, c))
    && (forall c :: 0 <= c < |arch.cells| && s.cells[c].node.Some? ==> NetKept(net, s, s.cells[c].node.value))
  }

  lemma BlankIsLegal(net: Net, arch: Arch)
    requires Shaped(net)
    ensures Legal(net, arch, InitBle(arch))
  {
    hide OnOutput, InCells, Routed, Owned;
  }

  /** Every used port of a legal BLE decodes, the way print_blif reads it, to the driver of its pin,
      and every pin of the node has exactly one such port. */
  lemma LegalPortsDecode(net: Net, arch: Arch, s: Ble, c: nat)
    requires Shaped(net) && Legal(net, arch, s) && c < |arch.cells| && s.cells[c].node.Some?
    ensures Fits(arch, s) && s.cells[c].node.value < net.Size()
    ensures forall j: nat :: j < |arch.cells[c]| && s.ports[c][j].used ==>
      0 <= s.ports[c][j].pin < |net.ins[s.cells[c].node.value]|
      && PortNet(net, arch, s, c, j) == Some(net.ins[s.cells[c].node.value][s.ports[c][j].pin])
    ensures forall p :: 0 <= p < |net.ins[s.cells[c].node.value]| ==> HasPort(s, c, p)
    ensures forall j, k :: 0 <= j < k < |arch.cells[c]| && s.ports[c][j].used && s.ports[c][k].used ==>
      s.ports[c][j].pin != s.ports[c][k].pin
  {
    hide InputsOk, NetKept, Delivers, Decode;
    assert CellRouted(net, arch, s, c);
    var node := s.cells[c].node.value;
    forall j: nat | j < |arch.cells[c]| && s.ports[c][j].used
      ensures PortNet(net, arch, s, c, j) == Some(net.ins[node][s.ports[c][j].pin])
    {
      assert PortOk(net, arch, s, c, j, node);
      DeliversDecodes(net, s, arch.cells[c][j][s.ports[c][j].mux], net.ins[node][s.ports[c][j].pin]);
    }
  }

  /** What the callers of mini_sat_solver guarantee. */
  ghost predicate Ready(net: Net, arch: Arch, s: Ble, members: seq<nat>, idxes: seq<nat>) {
    NetOk(net) && BufsFeedLatches(net) && Legal(net, arch, s) && GoodMembers(net, arch, s, members, idxes)
      && members != []
  }

  lemma ReadyFits(net: Net, arch: Arch, s: Ble, members: seq<nat>, idxes: seq<nat>)
    requires Ready(net, arch, s, members, idxes)
    ensures Shaped(net) && Fits(arch, s) && |idxes| == |members| && members != [] && SlotsInRange(net, s)
      && CellsOk(net, s)
    ensures forall j :: 0 <= j < |members| ==> members[j] < net.Size() && idxes[j] < |arch.cells|
    ensures forall i :: 0 <= i < |s.ins| ==> (s.ins[i].used <==> s.ins[i].node.Some?)
  {
    hide OutsOk, AllOwned, CellRouted, NetKept, BufsFeedLatches;
    forall i | 0 <= i < |s.ins| ensures s.ins[i].used <==> s.ins[i].node.Some? {
      assert InputOk(net, s, i);
    }
  }

  lemma NewNodeKept(net: Net, arch: Arch, s: Ble, t: Ble, members: seq<nat>, idxes: seq<nat>, i: nat)
    requires NetOk(net) && CellsOk(net, s) && Fits(arch, s) && GoodMembers(net, arch, s, members, idxes)
      && i < |members| && SlotsInRange(net, s)
    requires |idxes| == |members| && |t.cells| == |s.cells|
    requires Served(net, t, members[i], CombNum(net, s, members, i))
    requires forall j :: 0 <= j < |members| ==> t.cells[idxes[j]] == CellSlot(true, Some(members[j]))
    requires forall c :: 0 <= c < |s.cells| && s.cells[c].node.Some? ==> t.cells[c] == s.cells[c]
    ensures NetKept(net, t, members[i])
  {
    hide CombNum, CombFanout, OnOutput, CellsOk, Agree, ArityOk;
    CombNumAgainstFanout(net, arch, s, members, idxes, i);
    if !OnOutput(t, members[i]) {
      forall f | f in net.outs[members[i]] && !net.IsLatch(f) ensures InCells(t, f) {
        InCellsIs(t, f);
        InCellsIs(s, f);
        if f in members[i + 1..] {
          var j :| i + 1 <= j < |members| && members[j] == f;
          assert t.cells[idxes[j]].node == Some(f);
        } else {
          var c :| 0 <= c < |s.cells| && s.cells[c].node == Some(f);
          assert t.cells[c].node == Some(f);
        }
      }
    }
  }

  lemma OldNodeKept(net: Net, s: Ble, t: Ble, x: nat)
    requires Shaped(net) && x < net.Size() && NetKept(net, s, x) && |t.cells| == |s.cells|
    requires forall c :: 0 <= c < |s.cells| && s.cells[c].node.Some? ==> t.cells[c] == s.cells[c]
    requires forall n: nat :: OnOutput(s, n) ==> OnOutput(t, n)
    ensures NetKept(net, t, x)
  {
    hide OnOutput;
    forall f | f in net.outs[x] && InCells(s, f) ensures InCells(t, f) {
      InCellsIs(s, f);
      InCellsIs(t, f);
      var c :| 0 <= c < |s.cells| && s.cells[c].node == Some(f);
      assert t.cells[c].node == Some(f);
    }
  }

  /** What a successful mini_sat_solver commits. */
  ghost predicate Committed(net: Net, arch: Arch, s: Ble, t: Ble, members: seq<nat>, idxes: seq<nat>)
    requires Shaped(net) && Fits(arch, s)
  {
    && Legal(net, arch, t)
    && |idxes| == |members| && |t.cells| == |s.cells|
    && (forall i :: 0 <= i < |members| ==>
      idxes[i] < |t.cells| && t.cells[idxes[i]] == CellSlot(true, Some(members[i])))
    && (forall c :: 0 <= c < |t.cells| && c !in idxes ==> t.cells[c] == s.cells[c])
    && (forall i :: 0 <= i < |members| ==> members[i] < net.Size() && LatchServed(net, t, members[i]))
    && LatchesSettled(net, arch, s, t, members, idxes)
    && (forall n: nat :: OnOutput(s, n) ==> OnOutput(t, n))
    && (forall n: nat :: OnOutput(t, n) ==>
      OnOutput(s, n) || exists i :: 0 <= i < |members| && Expected(net, members[i], n))
  }

  /** No new node's latch is left out where a sequential output could still be had. */
  ghost predicate LatchesSettled(net: Net, arch: Arch, s: Ble, t: Ble, members: seq<nat>, idxes: seq<nat>)
    requires Shaped(net) && |idxes| == |members|
  {
    Fits(arch, t)
    && forall i: nat :: i < |members| ==> members[i] < net.Size() && LatchSettled(net, arch, s, t, members, idxes, i)
  }

  lemma AllSettled(net: Net, arch: Arch, s: Ble, members: seq<nat>, idxes: seq<nat>, t: Ble, u: Ble)
    requires Ready(net, arch, s, members, idxes)
    requires Shaped(net) && Fits(arch, s) && |idxes| == |members| && members != [] && SlotsInRange(net, s)
      && CellsOk(net, s)
    requires forall j :: 0 <= j < |members| ==> members[j] < net.Size() && idxes[j] < |arch.cells|
    requires AllOutputs(net, arch, s, members, idxes, CombNums(net, s, members)) == Done(t)
    requires Fits(arch, t) && Fits(arch, u) && u.outs == t.outs
    ensures LatchesSettled(net, arch, s, u, members, idxes)
  {
    hide AllOutputs, CombNum, LatchPlaced, LatchSettled, Legal, BufsFeedLatches, CellsOk, InCells;
    forall i: nat | i < |members| ensures LatchSettled(net, arch, s, u, members, idxes, i) {
      AllOutputsPlaces(net, arch, s, members, idxes, CombNums(net, s, members), i);
      PlacedKept(net, arch, t, u, idxes[i], members[i], CombNum(net, s, members, i));
      PlacedSettles(net, arch, s, u, members, idxes, i);
    }
  }

  /** The node's unmapped latch leaves on an output, or the node itself does; a buffer's latch does. */
  ghost predicate LatchServed(net: Net, t: Ble, x: nat)
    requires Shaped(net) && x < net.Size()
  {
    var latch := FirstLatch(net, net.outs[x]);
    latch.Some? ==> (OnOutput(t, latch.value) || OnOutput(t, x)) && (net.kind[x] == Buf ==> OnOutput(t, latch.value))
  }

  /** Same cells and outputs: the output half is not disturbed by mapping inputs. */
  lemma SameOutSide(net: Net, arch: Arch, t: Ble, u: Ble)
    requires OutSide(net, arch, t) && Fits(arch, u) && u.cells == t.cells && u.outs == t.outs
    ensures OutSide(net, arch, u) && (forall n: nat :: OnOutput(u, n) <==> OnOutput(t, n))
      && (forall n: nat :: InCells(u, n) <==> InCells(t, n))
  {
    assert CellNodes(t) == CellNodes(u) && OutNodes(t) == OutNodes(u);
    forall o | 0 <= o < |u.outs| ensures OutOk(net, arch, u, o) {
      assert OutOk(net, arch, t, o);
      assert OutCell(arch, u, o) == OutCell(arch, t, o);
    }
    forall c | 0 <= c < |u.cells| && u.cells[c].node.Some? ensures Owned(arch, u, c) {
      assert Owned(arch, t, c);
      var o :| 0 <= o < |t.outs| && t.outs[o].used && OutCell(arch, t, o) == Some(c);
      assert OutCell(arch, u, o) == Some(c);
    }
  }

  /** The output half on its own: all new nodes in place, every net kept. */
  lemma OutputHalf(net: Net, arch: Arch, s: Ble, members: seq<nat>, idxes: seq<nat>, t: Ble)
    requires Ready(net, arch, s, members, idxes)
    requires Shaped(net) && Fits(arch, s) && |idxes| == |members| && members != [] && SlotsInRange(net, s)
    requires forall j :: 0 <= j < |members| ==> members[j] < net.Size() && idxes[j] < |arch.cells|
    requires AllOutputs(net, arch, s, members, idxes, CombNums(net, s, members)) == Done(t)
    ensures OutSide(net, arch, t) && |t.cells| == |s.cells| && t.ins == s.ins && t.ports == s.ports
    ensures forall i :: 0 <= i < |members| ==> t.cells[idxes[i]] == CellSlot(true, Some(members[i]))
    ensures forall c :: 0 <= c < |t.cells| && c !in idxes ==> t.cells[c] == s.cells[c]
    ensures forall i :: 0 <= i < |members| ==> Served(net, t, members[i], CombNum(net, s, members, i))
    ensures forall n: nat :: OnOutput(s, n) ==> OnOutput(t, n)
    ensures forall n: nat :: OnOutput(t, n) ==>
      OnOutput(s, n) || exists i :: 0 <= i < |members| && Expected(net, members[i], n)
  {
    hide AllOutputs, OutSide, Served, OnOutput, Expected, CombNum, InputsOk, CellRouted, NetKept, BufsFeedLatches,
      GoodMembers, NetOk;
    var combs := CombNums(net, s, members);
    AllOutputsGives(net, arch, s, members, idxes, combs);
    var done := DoneUpTo(|members|, |members|);
    assert Batch(net, arch, s, t, members, idxes, combs, done);
    assert Fits(arch, t);
    forall i: nat | i < |members|
      ensures t.cells[idxes[i]] == CellSlot(true, Some(members[i]))
      ensures Served(net, t, members[i], CombNum(net, s, members, i))
    {
      assert i in done;
    }
    forall c | 0 <= c < |t.cells| && c !in idxes ensures t.cells[c] == s.cells[c] {
      assert forall i :: i in done ==> idxes[i] in idxes;
    }
  }

  /** MAIN RESULT for one call: a successful mini_sat_solver keeps the BLE legal, puts each new node
      in its cell, and leaves the other cells alone. */
  lemma MiniSatCommits(net: Net, arch: Arch, s: Ble, members: seq<nat>, idxes: seq<nat>)
    requires Ready(net, arch, s, members, idxes)
    ensures Shaped(net) && Fits(arch, s) && |idxes| == |members| && members != [] && SlotsInRange(net, s)
    ensures forall j :: 0 <= j < |members| ==> members[j] < net.Size() && idxes[j] < |arch.cells|
    ensures !MiniSat(net, arch, s, members, idxes).Exits?
    ensures var r := MiniSat(net, arch, s, members, idxes);
      r.Done? ==> Committed(net, arch, s, r.ble, members, idxes)
  {
    hide AllOutputs, OutSide, Served, OnOutput, Expected, CombNum, InputsOk, CellRouted, NetKept, BufsFeedLatches,
      GoodMembers, NetOk, RemapFrom, FreeInputs, Committed, Legal, CombNums, CellsOk;
    ReadyFits(net, arch, s, members, idxes);
    MiniSatNoExit(net, arch, s, members, idxes) by {
      assert Ready(net, arch, s, members, idxes);
    }
    var r := MiniSat(net, arch, s, members, idxes);
    if r.Done? {
      var t := AllOutputs(net, arch, s, members, idxes, CombNums(net, s, members)).ble;
      OutputHalf(net, arch, s, members, idxes, t);
      InputHalf(net, arch, s, members, idxes, t, r.ble);
    }
  }

  lemma InputHalf(net: Net, arch: Arch, s: Ble, members: seq<nat>, idxes: seq<nat>, t: Ble, u: Ble)
    requires Ready(net, arch, s, members, idxes) && Fits(arch, t)
    requires Shaped(net) && Fits(arch, s) && |idxes| == |members| && members != [] && SlotsInRange(net, s)
    requires forall j :: 0 <= j < |members| ==> members[j] < net.Size() && idxes[j] < |arch.cells|
    requires OutSide(net, arch, t) && |t.cells| == |s.cells| && t.ins == s.ins && t.ports == s.ports
    requires forall i :: 0 <= i < |members| ==> t.cells[idxes[i]] == CellSlot(true, Some(members[i]))
    requires forall c :: 0 <= c < |t.cells| && c !in idxes ==> t.cells[c] == s.cells[c]
    requires forall i :: 0 <= i < |members| ==> Served(net, t, members[i], CombNum(net, s, members, i))
    requires forall n: nat :: OnOutput(s, n) ==> OnOutput(t, n)
    requires forall n: nat :: OnOutput(t, n) ==>
      OnOutput(s, n) || exists i :: 0 <= i < |members| && Expected(net, members[i], n)
    requires RemapFrom(net, arch, FreeInputs(arch, t), 0) == Some(u)
    requires AllOutputs(net, arch, s, members, idxes, CombNums(net, s, members)) == Done(t)
    ensures Committed(net, arch, s, u, members, idxes)
  {
    hide OutSide, Served, OnOutput, InCells, Expected, CombNum, InputsOk, CellRouted, NetKept, BufsFeedLatches,
      GoodMembers, NetOk, RemapFrom, FreeInputs, CellsOk, NoPorts, LatchServed, Legal, AllOutputs, LatchesSettled;
    ReadyFits(net, arch, s, members, idxes);
    assert CellsOk(net, t) by { OutSideCells(net, arch, t); }
    FreeInputsGives(net, arch, t);
    RemapFromGives(net, arch, FreeInputs(arch, t), 0);
    SameOutSide(net, arch, t, u);
    forall i | 0 <= i < |members| ensures LatchServed(net, u, members[i]) {
      ServedLatch(net, t, u, members[i], CombNum(net, s, members, i));
    }
    AllNetsKept(net, arch, s, members, idxes, t);
    AllSettled(net, arch, s, members, idxes, t, u);
    assert Legal(net, arch, u) by { LegalFrom(net, arch, t, u); }
  }

  lemma OutSideCells(net: Net, arch: Arch, t: Ble)
    requires OutSide(net, arch, t)
    ensures CellsOk(net, t)
  {
  }

  lemma ServedLatch(net: Net, t: Ble, u: Ble, x: nat, combNum: nat)
    requires Shaped(net) && x < net.Size() && Served(net, t, x, combNum)
    requires forall n: nat :: OnOutput(u, n) <==> OnOutput(t, n)
    ensures LatchServed(net, u, x)
  {
    hide OnOutput, FirstLatch;
  }

  lemma LegalFrom(net: Net, arch: Arch, t: Ble, u: Ble)
    requires Shaped(net) && Fits(arch, u) && OutSide(net, arch, u) && InputsOk(net, u) && u.cells == t.cells
    requires forall c :: 0 <= c < |arch.cells| ==> CellRouted(net, arch, u, c)
    requires (forall n: nat :: OnOutput(u, n) <==> OnOutput(t, n))
      && (forall n: nat :: InCells(u, n) <==> InCells(t, n))
    requires forall c :: 0 <= c < |t.cells| && t.cells[c].node.Some? ==>
      t.cells[c].node.value < net.Size() && NetKept(net, t, t.cells[c].node.value)
    ensures Legal(net, arch, u)
  {
    hide OutSide, InputsOk, CellRouted, OnOutput, InCells;
  }

  lemma AllNetsKept(net: Net, arch: Arch, s: Ble, members: seq<nat>, idxes: seq<nat>, t: Ble)
    requires Ready(net, arch, s, members, idxes)
    requires Shaped(net) && Fits(arch, s) && |idxes| == |members| && SlotsInRange(net, s) && CellsOk(net, s)
      && |t.cells| == |s.cells|
    requires forall j :: 0 <= j < |members| ==> members[j] < net.Size() && idxes[j] < |arch.cells|
    requires forall i :: 0 <= i < |members| ==> t.cells[idxes[i]] == CellSlot(true, Some(members[i]))
    requires forall c :: 0 <= c < |t.cells| && c !in idxes ==> t.cells[c] == s.cells[c]
    requires forall i :: 0 <= i < |members| ==> Served(net, t, members[i], CombNum(net, s, members, i))
    requires forall n: nat :: OnOutput(s, n) ==> OnOutput(t, n)
    ensures forall c :: 0 <= c < |t.cells| && t.cells[c].node.Some? ==>
      t.cells[c].node.value < net.Size() && NetKept(net, t, t.cells[c].node.value)
  {
    hide OutSide, Served, OnOutput, InCells, CombNum, InputsOk, CellRouted, NetKept, BufsFeedLatches, NetOk, CellsOk;
    assert forall c :: 0 <= c < |s.cells| && s.cells[c].node.Some? ==> c !in idxes;
    forall c | 0 <= c < |t.cells| && t.cells[c].node.Some?
      ensures t.cells[c].node.value < net.Size() && NetKept(net, t, t.cells[c].node.value)
    {
      if c in idxes {
        var i :| 0 <= i < |idxes| && idxes[i] == c;
        NewNodeKept(net, arch, s, t, members, idxes, i);
      } else {
        OldNodeKept(net, s, t, s.cells[c].node.value);
      }
    }
  }
}
