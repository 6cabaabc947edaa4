/** The mini SAT solver does not look at the flags of tried patterns. */
module SolverFlags {
  import opened Seqs
  import opened LogicNetwork
  import opened NetworkPasses
  import opened BleState
  import opened SatSpec

  /** The same network but for the tried flags. */
  ghost predicate SameButTried(a: Net, b: Net) {
    Shaped(a) && Shaped(b) && b == a.(tried := b.tried)
  }

  lemma {:induction false} NonLatchesTried(a: Net, b: Net, s: seq<nat>)
    requires SameButTried(a, b)
    ensures NonLatches(b, s) == NonLatches(a, s) && FirstLatch(b, s) == FirstLatch(a, s)
  {
    if s != [] {
      NonLatchesTried(a, b, s[1..]);
    }
  }

  lemma SatOutputsTried(a: Net, b: Net, arch: Arch, s: Ble, cell: nat, cur: nat, combNum: nat)
    requires SameButTried(a, b) && Fits(arch, s) && cell < |arch.cells| && cur < a.Size()
    ensures SatOutputs(b, arch, s, cell, cur, combNum) == SatOutputs(a, arch, s, cell, cur, combNum)
  {
    hide SatBleOut;
    NonLatchesTried(a, b, a.outs[cur]);
  }

  lemma {:induction false} OutputsFromTried(a: Net, b: Net, arch: Arch, s: Ble, members: seq<nat>, idxes: seq<nat>,
      combs: seq<nat>, i: nat)
    requires SameButTried(a, b) && Fits(arch, s) && |idxes| == |members| == |combs| && i < |members|
    requires forall j :: 0 <= j < |members| ==> members[j] < a.Size() && idxes[j] < |arch.cells|
    ensures OutputsFrom(b, arch, s, members, idxes, combs, i) == OutputsFrom(a, arch, s, members, idxes, combs, i)
    decreases |members| - i
  {
    hide SatOutputs;
    if i < |members| - 1 {
      SatOutputsTried(a, b, arch, s, idxes[i], members[i], combs[i]);
      var r := SatOutputs(a, arch, s, idxes[i], members[i], combs[i]);
      if r.Done? {
        OutputsFromTried(a, b, arch, r.ble, members, idxes, combs, i + 1);
      }
    }
  }

  lemma AllOutputsTried(a: Net, b: Net, arch: Arch, s: Ble, members: seq<nat>, idxes: seq<nat>, combs: seq<nat>)
    requires SameButTried(a, b) && Fits(arch, s) && |idxes| == |members| == |combs| && members != []
    requires forall j :: 0 <= j < |members| ==> members[j] < a.Size() && idxes[j] < |arch.cells|
    ensures AllOutputs(b, arch, s, members, idxes, combs) == AllOutputs(a, arch, s, members, idxes, combs)
  {
    hide SatOutputs, OutputsFrom;
    var root := |members| - 1;
    SatOutputsTried(a, b, arch, s, idxes[root], members[root], combs[root]);
    var r := SatOutputs(a, arch, s, idxes[root], members[root], combs[root]);
    if r.Done? {
      OutputsFromTried(a, b, arch, r.ble, members, idxes, combs, 0);
    }
  }

  lemma {:induction false} PinsDrivenTried(a: Net, b: Net, x: nat, ms: seq<nat>)
    requires SameButTried(a, b) && forall i :: 0 <= i < |ms| ==> ms[i] < a.Size()
    ensures PinsDriven(b, x, ms) == PinsDriven(a, x, ms)
  {
    if ms != [] {
      PinsDrivenTried(a, b, x, ms[1..]);
    }
  }

  lemma CombNumsTried(a: Net, b: Net, s: Ble, members: seq<nat>)
    requires SameButTried(a, b) && forall j :: 0 <= j < |members| ==> members[j] < a.Size()
    requires forall c :: 0 <= c < |s.cells| && s.cells[c].node.Some? ==> s.cells[c].node.value < a.Size()
    ensures CombNums(b, s, members) == CombNums(a, s, members)
  {
    forall i | 0 <= i < |members| ensures CombNum(b, s, members, i) == CombNum(a, s, members, i) {
      CombNumTried(a, b, s, members, i);
    }
  }

  lemma CombNumTried(a: Net, b: Net, s: Ble, members: seq<nat>, i: nat)
    requires SameButTried(a, b) && i < |members| && forall j :: 0 <= j < |members| ==> members[j] < a.Size()
    requires forall c :: 0 <= c < |s.cells| && s.cells[c].node.Some? ==> s.cells[c].node.value < a.Size()
    ensures CombNum(b, s, members, i) == CombNum(a, s, members, i)
  {
    hide PinsDriven, PlacedNodes;
    PlacedNodesAre(s.cells);
    var later := members[i + 1..] + PlacedNodes(s.cells);
    forall j | 0 <= j < |later| ensures later[j] < a.Size() {
      if j >= |members| - i - 1 {
        assert later[j] in PlacedNodes(s.cells);
      }
    }
    PinsDrivenTried(a, b, members[i], later);
  }

  lemma {:induction false} SharedTried(a: Net, b: Net, s: Ble, cands: seq<PortRef>, cell: nat, port: nat, targ: nat,
      i: nat)
    requires SameButTried(a, b)
    ensures SharedInput(b, s, cands, cell, port, targ, i) == SharedInput(a, s, cands, cell, port, targ, i)
    decreases |s.ins| - i
  {
    hide CandIndex, Shaped;
    if i < |s.ins| {
      SharedTried(a, b, s, cands, cell, port, targ, i + 1);
    }
  }

  lemma RouteToTried(a: Net, b: Net, s: Ble, cands: seq<PortRef>, cell: nat, port: nat, targ: nat)
    requires SameButTried(a, b)
    ensures RouteTo(b, s, cands, cell, port, targ) == RouteTo(a, s, cands, cell, port, targ)
  {
    hide CandIndex, SharedInput, FreeInput, IndexOf;
    SharedTried(a, b, s, cands, cell, port, targ, 0);
  }

  lemma {:induction false} BestPortTried(a: Net, b: Net, arch: Arch, s: Ble, cell: nat, targ: nat, n: nat)
    requires SameButTried(a, b) && Fits(arch, s) && cell < |arch.cells| && n <= |arch.cells[cell]|
    ensures BestPort(b, arch, s, cell, targ, n) == BestPort(a, arch, s, cell, targ, n)
  {
    hide RouteTo, PortCost, SameButTried;
    if n > 0 {
      BestPortTried(a, b, arch, s, cell, targ, n - 1);
      RouteToTried(a, b, s, arch.cells[cell][n - 1], cell, n - 1, targ);
    }
  }

  lemma RoutePinTried(a: Net, b: Net, arch: Arch, s: Ble, cell: nat, node: nat, pin: nat)
    requires SameButTried(a, b) && Fits(arch, s) && cell < |arch.cells| && node < a.Size() && pin < |a.ins[node]|
    ensures RoutePin(b, arch, s, cell, node, pin) == RoutePin(a, arch, s, cell, node, pin)
  {
    hide BestPort, Connect;
    BestPortTried(a, b, arch, s, cell, a.ins[node][pin], |arch.cells[cell]|);
  }

  lemma {:induction false} NextPinTried(a: Net, b: Net, s: Ble, pins: seq<nat>, status: seq<bool>, n: nat)
    requires |status| == |pins| && n <= |pins|
    ensures NextPin(b, s, pins, status, n) == NextPin(a, s, pins, status, n)
  {
    hide CellNodes, IndexOf;
    if n > 0 {
      NextPinTried(a, b, s, pins, status, n - 1);
    }
  }

  lemma {:induction false} RouteInputsTried(a: Net, b: Net, arch: Arch, s: Ble, cell: nat, node: nat, status: seq<bool>)
    requires SameButTried(a, b) && Fits(arch, s) && cell < |arch.cells| && node < a.Size() && |status| == |a.ins[node]|
    ensures RouteInputs(b, arch, s, cell, node, status) == RouteInputs(a, arch, s, cell, node, status)
    decreases Unrouted(status)
  {
    hide RoutePin, NextPin, Unrouted;
    NextPinTried(a, b, s, a.ins[node], status, |status|);
    var p := NextPin(a, s, a.ins[node], status, |status|).1;
    if p != -1 {
      RoutePinTried(a, b, arch, s, cell, node, p);
      var r := RoutePin(a, arch, s, cell, node, p);
      if r.Some? {
        UnroutedDrops(status, p);
        RouteInputsTried(a, b, arch, r.value, cell, node, status[p := true]);
      }
    }
  }

  lemma {:induction false} RemapTried(a: Net, b: Net, arch: Arch, s: Ble, c: nat)
    requires SameButTried(a, b) && Fits(arch, s) && c <= |arch.cells|
    ensures RemapFrom(b, arch, s, c) == RemapFrom(a, arch, s, c)
    decreases |arch.cells| - c
  {
    hide RouteInputs;
    if c < |arch.cells| {
      if s.cells[c].used && s.cells[c].node.Some? && s.cells[c].node.value < a.Size() {
        var node := s.cells[c].node.value;
        RouteInputsTried(a, b, arch, s, c, node, Blank(|a.ins[node]|, false));
        var r := RouteInputs(a, arch, s, c, node, Blank(|a.ins[node]|, false));
        if r.Some? {
          RemapTried(a, b, arch, r.value, c + 1);
        }
      } else {
        RemapTried(a, b, arch, s, c + 1);
      }
    }
  }

  lemma MiniSatTried(a: Net, b: Net, arch: Arch, s: Ble, members: seq<nat>, idxes: seq<nat>)
    requires SameButTried(a, b) && Fits(arch, s) && |idxes| == |members| && members != []
    requires forall j :: 0 <= j < |members| ==> members[j] < a.Size() && idxes[j] < |arch.cells|
    requires forall c :: 0 <= c < |s.cells| && s.cells[c].node.Some? ==> s.cells[c].node.value < a.Size()
    ensures MiniSat(b, arch, s, members, idxes) == MiniSat(a, arch, s, members, idxes)
  {
    hide CombNums, AllOutputs, FreeInputs, RemapFrom, Shaped;
    CombNumsTried(a, b, s, members);
    AllOutputsTried(a, b, arch, s, members, idxes, CombNums(a, s, members));
    var r := AllOutputs(a, arch, s, members, idxes, CombNums(a, s, members));
    if r.Done? {
      RemapTried(a, b, arch, FreeInputs(arch, r.ble), 0);
    }
  }
}
