/** The input half of mini_sat_solver: every pin of every placed node gets exactly one cell port,
    and the port delivers that pin's driver. */
module BleInputs {
  import opened Seqs
  import opened LogicNetwork
  import opened NetworkPasses
  import opened BleState
  import opened SatSpec
  import opened BleLegality

  /** The candidate brings the net to a port: from a cell, from an output, or through an input in use. */
  predicate Delivers(net: Net, s: Ble, r: PortRef, targ: nat) {
    match r
    case BleNd(c) => c < |s.cells| && s.cells[c].node == Some(targ)
    case BleOut(o) => o < |s.outs| && s.outs[o].node == Some(targ)
    case BleIn(i) => i < |s.ins| && s.ins[i].used && InputNet(net, s.ins[i]) == Some(targ)
  }

  lemma DeliversDecodes(net: Net, s: Ble, r: PortRef, targ: nat)
    requires Delivers(net, s, r, targ)
    ensures Decode(net, s, r) == Some(targ)
  {
  }

  /** A used port names a pin of the node and its mux delivers that pin's driver. */
  ghost predicate PortOk(net: Net, arch: Arch, s: Ble, c: nat, j: nat, node: nat)
    requires Shaped(net) && Fits(arch, s) && c < |arch.cells| && j < |arch.cells[c]| && node < net.Size()
  {
    var p := s.ports[c][j];
    p.used ==> 0 <= p.pin < |net.ins[node]| && 0 <= p.mux < |arch.cells[c][j]|
               && Delivers(net, s, arch.cells[c][j][p.mux], net.ins[node][p.pin])
  }

  ghost predicate HasPort(s: Ble, c: nat, p: nat)
    requires c < |s.ports|
  {
    exists j :: 0 <= j < |s.ports[c]| && s.ports[c][j].used && s.ports[c][j].pin == p
  }

  /** Used ports and pins with status set correspond one to one. */
  ghost predicate Routed(net: Net, arch: Arch, s: Ble, c: nat, node: nat, status: seq<bool>)
    requires Shaped(net) && Fits(arch, s) && c < |arch.cells| && node < net.Size()
  {
    && |status| == |net.ins[node]|
    && (forall j :: 0 <= j < |s.ports[c]| ==> PortOk(net, arch, s, c, j, node))
    && (forall j :: 0 <= j < |s.ports[c]| && s.ports[c][j].used
          ==> 0 <= s.ports[c][j].pin < |status| && status[s.ports[c][j].pin])
    && (forall j, k :: 0 <= j < k < |s.ports[c]| && s.ports[c][j].used && s.ports[c][k].used ==>
      s.ports[c][j].pin != s.ports[c][k].pin)
    && (forall p :: 0 <= p < |status| && status[p] ==> HasPort(s, c, p))
  }

  function AllTrue(n: nat): (r: seq<bool>)
    ensures |r| == n && forall i :: 0 <= i < n ==> r[i]
  {
    Blank(n, true)
  }

  /** In a used cell the port-to-pin map is a bijection between used ports and the node's pins. */
  ghost predicate CellRouted(net: Net, arch: Arch, s: Ble, c: nat)
    requires Shaped(net) && Fits(arch, s) && c < |arch.cells|
  {
    s.cells[c].node.Some? ==>
      s.cells[c].node.value < net.Size()
      && Routed(net, arch, s, c, s.cells[c].node.value, AllTrue(|net.ins[s.cells[c].node.value]|))
  }

  /** A used BLE input was allocated for a pin of a placed node and carries a net made outside. */
  ghost predicate InputOk(net: Net, s: Ble, i: nat)
    requires i < |s.ins|
  {
    && (s.ins[i].used <==> s.ins[i].node.Some?)
    && (s.ins[i].used ==>
          InCells(s, s.ins[i].node.value) && InputNet(net, s.ins[i]).Some?
          && !InCells(s, InputNet(net, s.ins[i]).value) && !OnOutput(s, InputNet(net, s.ins[i]).value))
  }

  ghost predicate InputsOk(net: Net, s: Ble) {
    forall i :: 0 <= i < |s.ins| ==> InputOk(net, s, i)
  }

  /** What mapping inputs of one cell may change. */
  ghost predicate Grew(s: Ble, t: Ble, cell: nat) {
    && t.cells == s.cells && t.outs == s.outs && |t.ins| == |s.ins| && |t.ports| == |s.ports|
    && (forall c :: 0 <= c < |s.ports| && c != cell ==> t.ports[c] == s.ports[c])
    && (forall i :: 0 <= i < |s.ins| && s.ins[i].used ==> t.ins[i] == s.ins[i])
  }

  lemma GrewDelivers(net: Net, s: Ble, t: Ble, cell: nat, r: PortRef, targ: nat)
    requires Grew(s, t, cell) && Delivers(net, s, r, targ)
    ensures Delivers(net, t, r, targ)
  {
  }

  lemma GrewKeepsRouted(net: Net, arch: Arch, s: Ble, t: Ble, cell: nat, c: nat)
    requires Shaped(net) && Fits(arch, s) && Fits(arch, t) && c < |arch.cells| && c != cell
    requires Grew(s, t, cell) && CellRouted(net, arch, s, c)
    ensures CellRouted(net, arch, t, c)
  {
    hide Delivers;
    if s.cells[c].node.Some? {
      var node := s.cells[c].node.value;
      forall j | 0 <= j < |t.ports[c]| ensures PortOk(net, arch, t, c, j, node) {
        assert PortOk(net, arch, s, c, j, node);
        if s.ports[c][j].used {
          GrewDelivers(net, s, t, cell, arch.cells[c][j][s.ports[c][j].mux], net.ins[node][s.ports[c][j].pin]);
        }
      }
      forall p | 0 <= p < |net.ins[node]| ensures HasPort(t, c, p) {
        assert HasPort(s, c, p);
      }
    }
  }

  /** The chosen mux setting delivers targ, or selects a free input for a net made outside. */
  lemma RouteToDelivers(net: Net, s: Ble, cands: seq<PortRef>, cell: nat, port: nat, targ: nat)
    requires RouteTo(net, s, cands, cell, port, targ) != -1
    ensures var r := cands[RouteTo(net, s, cands, cell, port, targ)];
      Delivers(net, s, r, targ)
      || (r.BleIn? && r.input < |s.ins| && !s.ins[r.input].used && !InCells(s, targ) && !OnOutput(s, targ))
  {
  }

  lemma ConnectDelivers(net: Net, arch: Arch, s: Ble, cell: nat, node: nat, pin: nat, c: PortChoice)
    requires Shaped(net) && Fits(arch, s) && cell < |arch.cells| && node < net.Size() && pin < |net.ins[node]|
    requires c.port < |arch.cells[cell]| && c.mux < |arch.cells[cell][c.port]| && s.cells[cell].node == Some(node)
    requires RouteTo(net, s, arch.cells[cell][c.port], cell, c.port, net.ins[node][pin]) == c.mux
    requires InputsOk(net, s)
    ensures var t := Connect(arch, s, cell, node, pin, c);
      && Grew(s, t, cell) && InputsOk(net, t)
      && t.ports[cell] == s.ports[cell][c.port := PortSlot(true, c.mux, pin)]
      && Delivers(net, t, arch.cells[cell][c.port][c.mux], net.ins[node][pin])
  {
    hide RouteTo;
    var t := Connect(arch, s, cell, node, pin, c);
    var r := arch.cells[cell][c.port][c.mux];
    RouteToDelivers(net, s, arch.cells[cell][c.port], cell, c.port, net.ins[node][pin]);
    assert CellNodes(t) == CellNodes(s) && OutNodes(t) == OutNodes(s);
    InCellsIs(s, node);
    forall i | 0 <= i < |t.ins| ensures InputOk(net, t, i) {
      assert InputOk(net, s, i);
    }
  }

  lemma PinRouted(net: Net, arch: Arch, s: Ble, t: Ble, cell: nat, node: nat, status: seq<bool>, p: nat, port: nat,
      mux: nat)
    requires Shaped(net) && Fits(arch, s) && Fits(arch, t) && cell < |arch.cells| && node < net.Size()
    requires Routed(net, arch, s, cell, node, status) && p < |status| && !status[p]
    requires port < |arch.cells[cell]| && !s.ports[cell][port].used && mux < |arch.cells[cell][port]|
    requires Grew(s, t, cell) && t.ports[cell] == s.ports[cell][port := PortSlot(true, mux, p)]
    requires Delivers(net, t, arch.cells[cell][port][mux], net.ins[node][p])
    ensures Routed(net, arch, t, cell, node, status[p := true])
  {
    hide Delivers;
    forall j | 0 <= j < |t.ports[cell]|
      ensures PortOk(net, arch, t, cell, j, node)
      ensures t.ports[cell][j].used ==> 0 <= t.ports[cell][j].pin < |status| && status[p := true][t.ports[cell][j].pin]
    {
      if j != port {
        assert PortOk(net, arch, s, cell, j, node);
        if s.ports[cell][j].used {
          GrewDelivers(net, s, t, cell, arch.cells[cell][j][s.ports[cell][j].mux], net.ins[node][s.ports[cell][j].pin]);
        }
      }
    }
    forall q | 0 <= q < |status| && status[p := true][q] ensures HasPort(t, cell, q) {
      if q == p {
        assert t.ports[cell][port].used && t.ports[cell][port].pin == q;
      } else {
        assert HasPort(s, cell, q);
        var j :| 0 <= j < |s.ports[cell]| && s.ports[cell][j].used && s.ports[cell][j].pin == q;
        assert t.ports[cell][j] == s.ports[cell][j];
      }
    }
    forall j, k | 0 <= j < k < |t.ports[cell]| && t.ports[cell][j].used && t.ports[cell][k].used
      ensures t.ports[cell][j].pin != t.ports[cell][k].pin
    {
      if j == port {
        assert status[s.ports[cell][k].pin];
      } else if k == port {
        assert status[s.ports[cell][j].pin];
      }
    }
  }

  lemma RoutePinGives(net: Net, arch: Arch, s: Ble, cell: nat, node: nat, status: seq<bool>, p: nat)
    requires Shaped(net) && Fits(arch, s) && cell < |arch.cells| && node < net.Size() && p < |net.ins[node]|
    requires Routed(net, arch, s, cell, node, status) && !status[p] && s.cells[cell].node == Some(node)
      && InputsOk(net, s)
    requires RoutePin(net, arch, s, cell, node, p).Some?
    ensures var t := RoutePin(net, arch, s, cell, node, p).value;
      Grew(s, t, cell) && InputsOk(net, t) && Routed(net, arch, t, cell, node, status[p := true])
  {
    hide RouteTo, Routed, InputsOk, Grew, Delivers, Connect;
    assert |status| == |net.ins[node]| by { RoutedLength(net, arch, s, cell, node, status); }
    var c := BestPort(net, arch, s, cell, net.ins[node][p], |arch.cells[cell]|).value;
    ConnectDelivers(net, arch, s, cell, node, p, c);
    PinRouted(net, arch, s, Connect(arch, s, cell, node, p, c), cell, node, status, p, c.port, c.mux);
  }

  lemma RoutedLength(net: Net, arch: Arch, s: Ble, c: nat, node: nat, status: seq<bool>)
    requires Shaped(net) && Fits(arch, s) && c < |arch.cells| && node < net.Size()
      && Routed(net, arch, s, c, node, status)
    ensures |status| == |net.ins[node]|
  {
  }

  lemma GrewTrans(s: Ble, t: Ble, u: Ble, cell: nat)
    requires Grew(s, t, cell) && Grew(t, u, cell)
    ensures Grew(s, u, cell)
  {
  }

  lemma {:induction false} RouteInputsGives(net: Net, arch: Arch, s: Ble, cell: nat, node: nat, status: seq<bool>)
    requires Shaped(net) && Fits(arch, s) && cell < |arch.cells| && node < net.Size() && |status| == |net.ins[node]|
    requires Routed(net, arch, s, cell, node, status) && s.cells[cell].node == Some(node) && InputsOk(net, s)
    requires RouteInputs(net, arch, s, cell, node, status).Some?
    ensures var t := RouteInputs(net, arch, s, cell, node, status).value;
      Grew(s, t, cell) && InputsOk(net, t) && CellRouted(net, arch, t, cell)
    decreases Unrouted(status)
  {
    hide Routed, InputsOk, Delivers, RoutePin, Unrouted;
    var p := NextPin(net, s, net.ins[node], status, |status|).1;
    if p == -1 {
      assert status == AllTrue(|net.ins[node]|);
    } else {
      RoutePinGives(net, arch, s, cell, node, status, p);
      UnroutedDrops(status, p);
      var t := RoutePin(net, arch, s, cell, node, p).value;
      RouteInputsGives(net, arch, t, cell, node, status[p := true]);
      GrewTrans(s, t, RouteInputs(net, arch, s, cell, node, status).value, cell);
    }
  }

  ghost predicate NoPorts(s: Ble, c: nat)
    requires c < |s.ports|
  {
    forall j :: 0 <= j < |s.ports[c]| ==> !s.ports[c][j].used
  }

  lemma NothingRouted(net: Net, arch: Arch, s: Ble, c: nat, node: nat)
    requires Shaped(net) && Fits(arch, s) && c < |arch.cells| && node < net.Size() && NoPorts(s, c)
    ensures Routed(net, arch, s, c, node, Blank(|net.ins[node]|, false))
  {
  }

  lemma {:induction false} RemapFromGives(net: Net, arch: Arch, s: Ble, c: nat)
    requires Shaped(net) && Fits(arch, s) && c <= |arch.cells| && CellsOk(net, s) && InputsOk(net, s)
    requires forall d :: 0 <= d < c ==> CellRouted(net, arch, s, d)
    requires forall d :: c <= d < |arch.cells| && s.cells[d].node.Some? ==> NoPorts(s, d)
    requires RemapFrom(net, arch, s, c).Some?
    ensures var t := RemapFrom(net, arch, s, c).value;
      && t.cells == s.cells && t.outs == s.outs && InputsOk(net, t)
      && forall d :: 0 <= d < |arch.cells| ==> CellRouted(net, arch, t, d)
    decreases |arch.cells| - c
  {
    hide Routed, InputsOk, RouteInputs;
    if c < |arch.cells| {
      if s.cells[c].node.Some? {
        var node := s.cells[c].node.value;
        assert node < net.Size();
        NothingRouted(net, arch, s, c, node);
        RouteInputsGives(net, arch, s, c, node, Blank(|net.ins[node]|, false));
        var t := RouteInputs(net, arch, s, c, node, Blank(|net.ins[node]|, false)).value;
        forall d | 0 <= d < c ensures CellRouted(net, arch, t, d) {
          GrewKeepsRouted(net, arch, s, t, c, d);
        }
        RemapFromGives(net, arch, t, c + 1);
      } else {
        RemapFromGives(net, arch, s, c + 1);
      }
    }
  }

  /** After the inputs are freed nothing carries a net in. */
  lemma FreeInputsGives(net: Net, arch: Arch, s: Ble)
    requires Fits(arch, s) && CellsOk(net, s)
    requires forall i :: 0 <= i < |s.ins| ==> (s.ins[i].used <==> s.ins[i].node.Some?)
    ensures var t := FreeInputs(arch, s);
      && t.cells == s.cells && t.outs == s.outs && CellsOk(net, t) && InputsOk(net, t)
      && forall d :: 0 <= d < |arch.cells| && t.cells[d].node.Some? ==> NoPorts(t, d)
  {
  }
}
