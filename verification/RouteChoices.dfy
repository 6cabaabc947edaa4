/** Which mux setting brings a net to a port, and in which order pins are routed, told from the record and
    the candidates alone. */
module RouteChoices {
  import opened Seqs
  import opened LogicNetwork
  import opened BleState
  import opened SatSpec

  /** targ is the node of cell c, the first such. */
  ghost predicate SitsIn(s: Ble, targ: nat, c: nat) {
    c < |s.cells| && s.cells[c].node == Some(targ) && forall d :: 0 <= d < c ==> s.cells[d].node != Some(targ)
  }

  /** targ leaves on output o, the first such. */
  ghost predicate LeavesOn(s: Ble, targ: nat, o: nat) {
    o < |s.outs| && s.outs[o].node == Some(targ) && forall p :: 0 <= p < o ==> s.outs[p].node != Some(targ)
  }

  ghost predicate MadeHere(s: Ble, targ: nat) {
    (exists c: nat :: SitsIn(s, targ, c)) || (exists o: nat :: LeavesOn(s, targ, o))
  }

  /** How good candidate r is for targ: its cell, its output, a BLE input that carries it already, a free
      input for a net made outside; None when it cannot serve. A cell's first port does not select the
      cell itself. */
  ghost function Rank(net: Net, s: Ble, cell: nat, port: nat, targ: nat, r: PortRef): Option<nat> {
    match r
    case BleNd(c) => if SitsIn(s, targ, c) && !(c == cell && port == 0) then Some(0) else None
    case BleOut(o) => if LeavesOn(s, targ, o) then Some(1) else None
    case BleIn(i) =>
      if MadeHere(s, targ) || i >= |s.ins| then None
      else if !s.ins[i].used then Some(3)
      else if InputNet(net, s.ins[i]) == Some(targ) then Some(2)
      else None
  }

  /** Candidate k is at least as good as any other: by rank, then the lower input, then the earlier entry. */
  ghost predicate BestSetting(net: Net, s: Ble, cands: seq<PortRef>, cell: nat, port: nat, targ: nat, k: nat) {
    && k < |cands| && Rank(net, s, cell, port, targ, cands[k]).Some?
    && forall j: nat :: j < |cands| && Rank(net, s, cell, port, targ, cands[j]).Some? ==>
         var a, b := Rank(net, s, cell, port, targ, cands[k]).value, Rank(net, s, cell, port, targ, cands[j]).value;
         a < b || (a == b && if cands[j] == cands[k] then k <= j
                             else cands[k].BleIn? && cands[j].BleIn? && cands[k].input < cands[j].input)
  }

  lemma CandIs(cands: seq<PortRef>, cell: nat, port: nat, r: PortRef)
    ensures var k := CandIndex(cands, cell, port, r);
      && (k == -1 <==> r !in cands || (r == BleNd(cell) && port == 0))
      && (k >= 0 ==> cands[k] == r && forall j :: 0 <= j < k ==> cands[j] != r)
  {
    assert forall j :: 0 <= j < IndexOf(cands, r) ==> cands[j] in cands[..IndexOf(cands, r)];
  }

  lemma {:induction false} SharedIs(net: Net, s: Ble, cands: seq<PortRef>, cell: nat, port: nat, targ: nat, i: nat)
    ensures var k := SharedInput(net, s, cands, cell, port, targ, i);
      && (k == -1 ==> forall x: nat :: i <= x < |s.ins| && s.ins[x].used && InputNet(net, s.ins[x]) == Some(targ) ==>
        BleIn(x) !in cands)
      && (k >= 0 ==>
            && cands[k].BleIn? && i <= cands[k].input < |s.ins| && s.ins[cands[k].input].used
            && InputNet(net, s.ins[cands[k].input]) == Some(targ) && (forall j :: 0 <= j < k ==> cands[j] != cands[k])
            && forall x: nat :: i <= x < cands[k].input && s.ins[x].used && InputNet(net, s.ins[x]) == Some(targ) ==>
                 BleIn(x) !in cands)
    decreases |s.ins| - i
  {
    hide InputNet, CandIndex;
    if i < |s.ins| {
      CandIs(cands, cell, port, BleIn(i));
      SharedIs(net, s, cands, cell, port, targ, i + 1);
    }
  }

  lemma {:induction false} FreeIs(s: Ble, cands: seq<PortRef>, cell: nat, port: nat, i: nat)
    ensures var k := FreeInput(s, cands, cell, port, i);
      && (k == -1 ==> forall x: nat :: i <= x < |s.ins| && !s.ins[x].used ==> BleIn(x) !in cands)
      && (k >= 0 ==>
            && cands[k].BleIn? && i <= cands[k].input < |s.ins| && !s.ins[cands[k].input].used
            && (forall j :: 0 <= j < k ==> cands[j] != cands[k])
            && forall x: nat :: i <= x < cands[k].input && !s.ins[x].used ==> BleIn(x) !in cands)
    decreases |s.ins| - i
  {
    hide CandIndex;
    if i < |s.ins| {
      CandIs(cands, cell, port, BleIn(i));
      FreeIs(s, cands, cell, port, i + 1);
    }
  }

  lemma SitsExactly(s: Ble, targ: nat)
    ensures var c := IndexOf(CellNodes(s), Some(targ));
      && (c >= 0 ==> SitsIn(s, targ, c)) && forall d: nat :: SitsIn(s, targ, d) ==> d == c
  {
    var c := IndexOf(CellNodes(s), Some(targ));
    if c >= 0 {
      assert forall d :: 0 <= d < c ==> CellNodes(s)[..c][d] == CellNodes(s)[d];
    }
    forall d: nat | SitsIn(s, targ, d) ensures d == c {
      assert CellNodes(s)[d] == Some(targ);
    }
  }

  lemma LeavesExactly(s: Ble, targ: nat)
    ensures var o := IndexOf(OutNodes(s), Some(targ));
      && (o >= 0 ==> LeavesOn(s, targ, o)) && forall p: nat :: LeavesOn(s, targ, p) ==> p == o
  {
    var o := IndexOf(OutNodes(s), Some(targ));
    if o >= 0 {
      assert forall p :: 0 <= p < o ==> OutNodes(s)[..o][p] == OutNodes(s)[p];
    }
    forall p: nat | LeavesOn(s, targ, p) ensures p == o {
      assert OutNodes(s)[p] == Some(targ);
    }
  }

  /** MAIN RESULT: sat_cell_port_target_lgknd finds the best setting, and none only if no candidate serves. */
  lemma RouteToExactly(net: Net, s: Ble, cands: seq<PortRef>, cell: nat, port: nat, targ: nat)
    ensures var k := RouteTo(net, s, cands, cell, port, targ);
      if k == -1 then forall j: nat :: j < |cands| ==> Rank(net, s, cell, port, targ, cands[j]).None?
      else BestSetting(net, s, cands, cell, port, targ, k)
  {
    hide InputNet, CandIndex, IndexOf, SitsIn, LeavesOn, SharedInput, FreeInput;
    SitsExactly(s, targ);
    LeavesExactly(s, targ);
    var c, o := IndexOf(CellNodes(s), Some(targ)), IndexOf(OutNodes(s), Some(targ));
    if c >= 0 { CandIs(cands, cell, port, BleNd(c)); }
    if o >= 0 { CandIs(cands, cell, port, BleOut(o)); }
    SharedIs(net, s, cands, cell, port, targ, 0);
    FreeIs(s, cands, cell, port, 0);
  }

  lemma BestIsUnique(net: Net, s: Ble, cands: seq<PortRef>, cell: nat, port: nat, targ: nat, k: nat, j: nat)
    requires BestSetting(net, s, cands, cell, port, targ, k) && BestSetting(net, s, cands, cell, port, targ, j)
    ensures k == j
  {
    hide Rank;
  }

  /** A setting inside the BLE costs a tenth of the candidates, rounded down, another one all of them. */
  function Price(cands: seq<PortRef>, k: nat): nat
    requires k < |cands|
  {
    if cands[k].BleNd? then |cands| / 10 else |cands|
  }

  /** The port for a pin: unused, with its best setting, cheapest, and first among equals; none only if no
      candidate of an unused port serves. */
  lemma BestPortExactly(net: Net, arch: Arch, s: Ble, cell: nat, targ: nat)
    requires Fits(arch, s) && cell < |arch.cells|
    ensures var r := BestPort(net, arch, s, cell, targ, |arch.cells[cell]|);
      && (r.None? <==> forall j: nat, k: nat ::
            j < |arch.cells[cell]| && !s.ports[cell][j].used && k < |arch.cells[cell][j]| ==>
            Rank(net, s, cell, j, targ, arch.cells[cell][j][k]).None?)
      && (r.Some? ==>
            var c := r.value;
            && c.port < |arch.cells[cell]| && !s.ports[cell][c.port].used
            && BestSetting(net, s, arch.cells[cell][c.port], cell, c.port, targ, c.mux)
            && forall j: nat, k: nat ::
                 j < |arch.cells[cell]| && !s.ports[cell][j].used
                   && BestSetting(net, s, arch.cells[cell][j], cell, j, targ, k)
                 ==>
                 Price(arch.cells[cell][c.port], c.mux) <= Price(arch.cells[cell][j], k)
                 && (j < c.port ==> Price(arch.cells[cell][c.port], c.mux) < Price(arch.cells[cell][j], k)))
  {
    hide RouteTo, Rank, BestSetting, BestPort;
    var n := |arch.cells[cell]|;
    BestPortIsCheapest(net, arch, s, cell, targ, n);
    var r := BestPort(net, arch, s, cell, targ, n);
    forall j: nat | j < n
      ensures var k := RouteTo(net, s, arch.cells[cell][j], cell, j, targ);
        if k == -1 then forall i: nat :: i < |arch.cells[cell][j]| ==>
          Rank(net, s, cell, j, targ, arch.cells[cell][j][i]).None?
        else BestSetting(net, s, arch.cells[cell][j], cell, j, targ, k)
    {
      RouteToExactly(net, s, arch.cells[cell][j], cell, j, targ);
    }
    forall j: nat, k: nat | j < n && BestSetting(net, s, arch.cells[cell][j], cell, j, targ, k)
      ensures k == RouteTo(net, s, arch.cells[cell][j], cell, j, targ)
    {
      BestIsRanked(net, s, arch.cells[cell][j], cell, j, targ, k);
      if RouteTo(net, s, arch.cells[cell][j], cell, j, targ) != -1 {
        BestIsUnique(net, s, arch.cells[cell][j], cell, j, targ, k,
          RouteTo(net, s, arch.cells[cell][j], cell, j, targ));
      }
    }
    forall j: nat | j < n && RouteTo(net, s, arch.cells[cell][j], cell, j, targ) != -1
      ensures exists k: nat :: k < |arch.cells[cell][j]| && Rank(net, s, cell, j, targ, arch.cells[cell][j][k]).Some?
    {
      BestIsRanked(net, s, arch.cells[cell][j], cell, j, targ, RouteTo(net, s, arch.cells[cell][j], cell, j, targ));
    }
  }

  /** The length of the candidate list, doubled for an output of the other kind. */
  function OutPrice(arch: Arch, o: nat, isComb: bool): nat
    requires o < |arch.outputs|
  {
    if arch.outputs[o].isComb == isComb then |arch.outputs[o].cands| else 2 * |arch.outputs[o].cands|
  }

  ghost predicate Offers(arch: Arch, s: Ble, cell: nat, o: nat) {
    o < |arch.outputs| && o < |s.outs| && !s.outs[o].used
    && exists k :: 0 <= k < |arch.outputs[o].cands| && arch.outputs[o].cands[k] == BleNd(cell)
  }

  /** sat_ble_out: the cheapest output that is free and can select the cell, the first among equals, set to
      the first candidate that is the cell; none only if there is none. */
  lemma BestOutExactly(arch: Arch, s: Ble, isComb: bool, cell: nat)
    requires Fits(arch, s)
    ensures var r := BestOut(arch, s, isComb, cell, |arch.outputs|);
      && (r.None? <==> forall o: nat :: !Offers(arch, s, cell, o))
      && (r.Some? ==>
            var c := r.value;
            && Offers(arch, s, cell, c.output) && c.mux < |arch.outputs[c.output].cands|
            && arch.outputs[c.output].cands[c.mux] == BleNd(cell)
            && forall o: nat :: Offers(arch, s, cell, o) ==>
                 OutPrice(arch, c.output, isComb) <= OutPrice(arch, o, isComb)
                 && (o < c.output ==> OutPrice(arch, c.output, isComb) < OutPrice(arch, o, isComb)))
  {
    BestOutIsCheapest(arch, s, isComb, cell, |arch.outputs|);
    forall o: nat | o < |arch.outputs| ensures Offers(arch, s, cell, o) <==> OutFits(arch, s, cell, o) {
    }
  }

  lemma BestIsRanked(net: Net, s: Ble, cands: seq<PortRef>, cell: nat, port: nat, targ: nat, k: nat)
    requires BestSetting(net, s, cands, cell, port, targ, k)
    ensures k < |cands| && Rank(net, s, cell, port, targ, cands[k]).Some?
  {
    hide Rank;
  }

  // ----- the order of the pins

  /** How the scan compares pins: by the cell of their driver, those driven from outside below all. */
  function Level(s: Ble, pins: seq<nat>, p: nat): int
    requires p < |pins|
  {
    IndexOf(CellNodes(s), Some(pins[p]))
  }

  /** The next pin is unrouted and its driver sits in the highest cell, the first such pin; if no driver of
      an unrouted pin sits in the BLE, it is the last unrouted pin. */
  lemma {:induction false} NextPinExactly(net: Net, s: Ble, pins: seq<nat>, status: seq<bool>, n: nat)
    requires |status| == |pins| && n <= |pins|
    ensures var p := NextPin(net, s, pins, status, n).1;
      if p == -1 then forall q :: 0 <= q < n ==> status[q]
      else
        && 0 <= p < n && !status[p] && NextPin(net, s, pins, status, n).0 == Level(s, pins, p)
        && forall q :: 0 <= q < n && !status[q] ==>
             Level(s, pins, q) < Level(s, pins, p)
             || (Level(s, pins, q) == Level(s, pins, p) && if Level(s, pins, p) >= 0 then p <= q else q <= p)
  {
    hide CellNodes, IndexOf;
    if n > 0 {
      NextPinExactly(net, s, pins, status, n - 1);
    }
  }
}
