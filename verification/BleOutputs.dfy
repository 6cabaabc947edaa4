/** The output half of mini_sat_solver: all new nodes are placed, each with its outputs. */
module BleOutputs {
  import opened Seqs
  import opened LogicNetwork
  import opened NetworkPasses
  import opened BleState
  import opened SatSpec
  import opened BleLegality

  lemma LatchOf(net: Net, cur: nat)
    requires NetOk(net) && cur < net.Size()
    ensures var l := FirstLatch(net, net.outs[cur]); l.Some? ==>
      l.value < net.Size() && net.IsLatch(l.value) && net.ins[l.value] == [cur] && !net.mapped[l.value]
  {
    var l := FirstLatch(net, net.outs[cur]);
    if l.Some? {
      EdgeBothWays(net, cur, l.value);
      assert net.ins[l.value] == [net.ins[l.value][0]];
    }
  }

  lemma OutOkKept(net: Net, arch: Arch, s: Ble, t: Ble, cell: nat, cur: nat, combNum: nat, o: nat)
    requires NetOk(net) && OutSide(net, arch, s) && Fits(arch, t) && cell < |s.cells| && cur < net.Size()
    requires s.cells[cell].node.None? && Outputted(net, arch, s, t, cell, cur, combNum) && o < |t.outs|
    ensures OutOk(net, arch, t, o)
  {
    hide OnOutput, SomeServes, AllOwned, Owned, CombFanout, FirstLatch;
    LatchOf(net, cur);
    var p := t.(cells := s.cells);
    assert p.outs[o] == t.outs[o];
    assert OutOk(net, arch, s, o);
  }

  lemma ServingOwns(arch: Arch, t: Ble, cell: nat, isComb: bool, node: nat)
    requires Fits(arch, t) && cell < |t.cells| && SomeServes(arch, t, cell, isComb, node)
    ensures Owned(arch, t, cell)
  {
    var o :| 0 <= o < |t.outs| && Serves(arch, t, o, cell, isComb, node);
    assert OutCell(arch, t, o) == Some(cell);
  }

  lemma OwnedKept(net: Net, arch: Arch, s: Ble, t: Ble, cell: nat, cur: nat, combNum: nat, c: nat)
    requires NetOk(net) && OutSide(net, arch, s) && Fits(arch, t) && cell < |s.cells| && cur < net.Size()
    requires s.cells[cell].node.None? && Outputted(net, arch, s, t, cell, cur, combNum)
    requires c < |t.cells| && t.cells[c].node.Some?
    ensures Owned(arch, t, c)
  {
    hide OnOutput, CombFanout, FirstLatch, OutOk, FlagsOk;
    CellsOf(net, arch, s, t, cell, cur, combNum);
    if c == cell {
      var latch := FirstLatch(net, net.outs[cur]);
      if SomeServes(arch, t, cell, true, cur) {
        ServingOwns(arch, t, cell, true, cur);
      } else {
        ServingOwns(arch, t, cell, false, latch.value);
      }
    } else {
      assert Owned(arch, s, c);
      var o :| 0 <= o < |s.outs| && s.outs[o].used && OutCell(arch, s, o) == Some(c);
      assert t.(cells := s.cells).outs[o] == s.outs[o];
      assert OutCell(arch, t, o) == Some(c);
    }
  }

  /** Placing one more node with its outputs keeps the output side of legality. */
  lemma OutSideKept(net: Net, arch: Arch, s: Ble, t: Ble, cell: nat, cur: nat, combNum: nat)
    requires NetOk(net) && OutSide(net, arch, s) && Fits(arch, t) && cell < |s.cells| && net.IsGate(cur)
    requires s.cells[cell].node.None? && !InCells(s, cur) && Outputted(net, arch, s, t, cell, cur, combNum)
    ensures OutSide(net, arch, t)
  {
    hide OutOk, Owned, OnOutput, FirstLatch, SomeServes, Outputted;
    CellsKept(net, s, t, cell, cur) by {
      assert t.cells == s.cells[cell := CellSlot(true, Some(cur))] by {
        assert Outputted(net, arch, s, t, cell, cur, combNum);
        CellsOf(net, arch, s, t, cell, cur, combNum);
      }
    }
    forall o | 0 <= o < |t.outs| ensures OutOk(net, arch, t, o) {
      OutOkKept(net, arch, s, t, cell, cur, combNum, o);
    }
    forall c | 0 <= c < |t.cells| && t.cells[c].node.Some? ensures Owned(arch, t, c) {
      OwnedKept(net, arch, s, t, cell, cur, combNum, c);
    }
  }

  lemma CellsOf(net: Net, arch: Arch, s: Ble, t: Ble, cell: nat, cur: nat, combNum: nat)
    requires Shaped(net) && Fits(arch, s) && Fits(arch, t) && cell < |s.cells| && cur < net.Size()
    requires Outputted(net, arch, s, t, cell, cur, combNum)
    ensures t.cells == s.cells[cell := CellSlot(true, Some(cur))] && t.ins == s.ins && t.ports == s.ports
      && |t.outs| == |s.outs|
  {
    hide OnOutput, FirstLatch, SomeServes, NewOutsServe;
  }

  lemma CellsKept(net: Net, s: Ble, t: Ble, cell: nat, cur: nat)
    requires CellsOk(net, s) && cell < |s.cells| && net.IsGate(cur) && !InCells(s, cur)
    requires t.cells == s.cells[cell := CellSlot(true, Some(cur))]
    ensures CellsOk(net, t)
  {
    InCellsIs(s, cur);
  }

  // ----- the whole batch

  /** The new nodes with an index in done sit in their cells with the outputs they need. */
  ghost predicate Batch(net: Net, arch: Arch, s: Ble, t: Ble, members: seq<nat>, idxes: seq<nat>, combs: seq<nat>,
      done: set<nat>)
    requires Shaped(net) && Fits(arch, s)
  {
    && |idxes| == |members| == |combs|
    && OutSide(net, arch, t) && t.ins == s.ins && t.ports == s.ports
    && (forall i :: i in done ==> i < |members| && idxes[i] < |t.cells| && members[i] < net.Size())
    && (forall i :: i in done ==> t.cells[idxes[i]] == CellSlot(true, Some(members[i])))
    && (forall c :: 0 <= c < |t.cells| && (forall i :: i in done ==> idxes[i] != c) ==> t.cells[c] == s.cells[c])
    && (forall i :: i in done ==> Served(net, t, members[i], combs[i]))
    && (forall n: nat :: OnOutput(s, n) ==> OnOutput(t, n))
    && (forall n: nat :: OnOutput(t, n) ==> OnOutput(s, n) || exists i :: i in done && Expected(net, members[i], n))
  }

  /** The outputs a new node needs: its own when it drives more than combNum pins, and its latch's
      or its own when it has an unmapped latch. */
  ghost predicate Served(net: Net, t: Ble, x: nat, combNum: nat)
    requires Shaped(net) && x < net.Size()
  {
    var latch := FirstLatch(net, net.outs[x]);
    && (CombFanout(net, x) > combNum || latch.None? ==> OnOutput(t, x))
    && (latch.Some? ==> OnOutput(t, latch.value) || OnOutput(t, x))
    && (latch.Some? && net.kind[x] == Buf ==> OnOutput(t, latch.value))
  }

  ghost predicate Expected(net: Net, x: nat, n: nat)
    requires Shaped(net) && x < net.Size()
  {
    n == x || FirstLatch(net, net.outs[x]) == Some(n)
  }

  ghost predicate GoodMembers(net: Net, arch: Arch, s: Ble, members: seq<nat>, idxes: seq<nat>) {
    && |idxes| == |members| && Distinct(members) && Distinct(idxes) && |s.cells| == |arch.cells|
    && (forall i :: 0 <= i < |members| ==> net.IsGate(members[i]) && !InCells(s, members[i]))
    && (forall i :: 0 <= i < |members| ==> idxes[i] < |s.cells| && s.cells[idxes[i]].node.None?)
  }

  lemma OutputsOf(net: Net, arch: Arch, t: Ble, u: Ble, cell: nat, cur: nat, combNum: nat, n: nat)
    requires Shaped(net) && Fits(arch, t) && Fits(arch, u) && cell < |t.cells| && cur < net.Size() && FlagsOk(t)
    requires Outputted(net, arch, t, u, cell, cur, combNum)
    ensures OnOutput(t, n) ==> OnOutput(u, n)
    ensures OnOutput(u, n) ==> OnOutput(t, n) || Expected(net, cur, n)
  {
    hide SomeServes, FirstLatch, CombFanout;
    var p := u.(cells := t.cells);
    assert OutNodes(p) == OutNodes(u);
    if OnOutput(t, n) {
      MoreOutsKeep(t, p, n);
    }
    if OnOutput(u, n) {
      OnOutputIs(u, n);
      var o :| 0 <= o < |u.outs| && u.outs[o].node == Some(n);
      if u.outs[o] == t.outs[o] {
        OnOutputIs(t, n);
      } else {
        assert p.outs[o] == u.outs[o];
      }
    }
  }

  lemma ServedKept(net: Net, t: Ble, u: Ble, x: nat, combNum: nat)
    requires Shaped(net) && x < net.Size() && Served(net, t, x, combNum)
    requires forall n: nat :: OnOutput(t, n) ==> OnOutput(u, n)
    ensures Served(net, u, x, combNum)
  {
    hide OnOutput, FirstLatch, CombFanout;
  }

  lemma BatchStep(net: Net, arch: Arch, s: Ble, t: Ble, u: Ble,
                  members: seq<nat>, idxes: seq<nat>, combs: seq<nat>, done: set<nat>, i: nat)
    requires NetOk(net) && Fits(arch, s) && Fits(arch, u) && GoodMembers(net, arch, s, members, idxes)
    requires Batch(net, arch, s, t, members, idxes, combs, done) && i < |members| && i !in done
    requires Outputted(net, arch, t, u, idxes[i], members[i], combs[i])
    ensures Batch(net, arch, s, u, members, idxes, combs, done + {i})
  {
    hide OnOutput, FirstLatch, CombFanout, Outputted, OutOk, Owned, InCells, CellsOk, AllOwned;
    var cell, cur := idxes[i], members[i];
    assert t.cells[cell] == s.cells[cell] by {
      assert forall j :: j in done ==> idxes[j] != cell;
    }
    NotYetPlaced(net, arch, s, t, members, idxes, combs, done, i);
    OutSideKept(net, arch, t, u, cell, cur, combs[i]);
    CellsOf(net, arch, t, u, cell, cur, combs[i]);
    assert FlagsOk(t) by { FlagsFromOuts(net, arch, t); }
    forall n: nat
      ensures OnOutput(t, n) ==> OnOutput(u, n)
      ensures OnOutput(u, n) ==> OnOutput(t, n) || Expected(net, cur, n)
    {
      OutputsOf(net, arch, t, u, cell, cur, combs[i], n);
    }
    forall j | j in done + {i} ensures Served(net, u, members[j], combs[j]) {
      if j == i {
        ServedNow(net, arch, t, u, cell, cur, combs[i]);
      } else {
        ServedKept(net, t, u, members[j], combs[j]);
      }
    }
    forall n: nat | OnOutput(u, n)
      ensures OnOutput(s, n) || exists j :: j in done + {i} && Expected(net, members[j], n)
    {
      if !OnOutput(t, n) {
        assert i in done + {i};
      }
    }
    forall c | 0 <= c < |u.cells| && (forall j :: j in done + {i} ==> idxes[j] != c) ensures u.cells[c] == s.cells[c] {
      assert i in done + {i};
      assert forall j :: j in done ==> j in done + {i};
    }
  }

  lemma FlagsFromOuts(net: Net, arch: Arch, t: Ble)
    requires OutSide(net, arch, t)
    ensures FlagsOk(t)
  {
    forall o | 0 <= o < |t.outs| ensures t.outs[o].used <==> t.outs[o].node.Some? {
      assert OutOk(net, arch, t, o);
    }
  }

  lemma ServedNow(net: Net, arch: Arch, t: Ble, u: Ble, cell: nat, cur: nat, combNum: nat)
    requires Shaped(net) && Fits(arch, t) && Fits(arch, u) && cell < |t.cells| && cur < net.Size()
    requires Outputted(net, arch, t, u, cell, cur, combNum)
    ensures Served(net, u, cur, combNum)
  {
    hide OnOutput, FirstLatch, CombFanout, SomeServes, NewOutsServe, MoreOuts;
  }

  lemma NotYetPlaced(net: Net, arch: Arch, s: Ble, t: Ble,
                     members: seq<nat>, idxes: seq<nat>, combs: seq<nat>, done: set<nat>, i: nat)
    requires Shaped(net) && Fits(arch, s) && GoodMembers(net, arch, s, members, idxes)
    requires Batch(net, arch, s, t, members, idxes, combs, done) && i < |members| && i !in done
    ensures !InCells(t, members[i])
  {
    hide OnOutput, FirstLatch, CombFanout, OutOk, Owned, Served, InCells;
    InCellsIs(t, members[i]);
    InCellsIs(s, members[i]);
  }

  /** The members with index below k, and the root. */
  ghost function DoneUpTo(n: nat, k: nat): (r: set<nat>)
    requires 0 < n && k <= n
    ensures forall i: nat :: i in r <==> i < k || i == n - 1
  {
    if k == 0 then {n - 1} else DoneUpTo(n, k - 1) + {k - 1}
  }

  lemma StepOutputs(net: Net, arch: Arch, s: Ble, t: Ble,
                    members: seq<nat>, idxes: seq<nat>, combs: seq<nat>, done: set<nat>, i: nat)
    requires NetOk(net) && Fits(arch, s) && GoodMembers(net, arch, s, members, idxes)
    requires Batch(net, arch, s, t, members, idxes, combs, done) && i < |members| && i !in done
    requires |combs| == |members| && idxes[i] < |arch.cells| && members[i] < net.Size() && Fits(arch, t)
    requires SatOutputs(net, arch, t, idxes[i], members[i], combs[i]).Done?
    ensures Batch(net, arch, s, SatOutputs(net, arch, t, idxes[i], members[i], combs[i]).ble, members, idxes, combs,
      done + {i})
  {
    hide SatOutputs, Batch, Outputted, OutOk;
    assert OutSide(net, arch, t) by { BatchHasOutSide(net, arch, s, t, members, idxes, combs, done); }
    FlagsFromOuts(net, arch, t);
    SatOutputsGives(net, arch, t, idxes[i], members[i], combs[i]);
    BatchStep(net, arch, s, t, SatOutputs(net, arch, t, idxes[i], members[i], combs[i]).ble, members, idxes, combs,
      done, i);
  }

  lemma BatchHasOutSide(net: Net, arch: Arch, s: Ble, t: Ble, members: seq<nat>, idxes: seq<nat>, combs: seq<nat>,
      done: set<nat>)
    requires Shaped(net) && Fits(arch, s) && Batch(net, arch, s, t, members, idxes, combs, done)
    ensures OutSide(net, arch, t)
  {
  }

  lemma {:induction false} OutputsFromGives(net: Net, arch: Arch, s: Ble, t: Ble,
                                            members: seq<nat>, idxes: seq<nat>, combs: seq<nat>, i: nat)
    requires NetOk(net) && Fits(arch, s) && GoodMembers(net, arch, s, members, idxes) && i < |members|
    requires Batch(net, arch, s, t, members, idxes, combs, DoneUpTo(|members|, i)) && Fits(arch, t)
    requires forall j :: 0 <= j < |members| ==> members[j] < net.Size() && idxes[j] < |arch.cells|
    requires |idxes| == |members| == |combs|
    requires OutputsFrom(net, arch, t, members, idxes, combs, i).Done?
    ensures Batch(net, arch, s, OutputsFrom(net, arch, t, members, idxes, combs, i).ble, members, idxes, combs,
      DoneUpTo(|members|, |members|))
    decreases |members| - i
  {
    hide SatOutputs, Batch, GoodMembers, OutSide;
    if i == |members| - 1 {
      assert DoneUpTo(|members|, i) == DoneUpTo(|members|, |members|);
    } else {
      StepOutputs(net, arch, s, t, members, idxes, combs, DoneUpTo(|members|, i), i);
      assert DoneUpTo(|members|, i) + {i} == DoneUpTo(|members|, i + 1);
      OutputsFromGives(net, arch, s, SatOutputs(net, arch, t, idxes[i], members[i], combs[i]).ble, members, idxes,
        combs, i + 1);
    }
  }

  lemma NoneYet(net: Net, arch: Arch, s: Ble, members: seq<nat>, idxes: seq<nat>, combs: seq<nat>)
    requires Shaped(net) && OutSide(net, arch, s) && |idxes| == |members| == |combs|
    ensures Batch(net, arch, s, s, members, idxes, combs, {})
  {
    hide OutSide, Served, Expected, OnOutput;
  }

  /** After the output half succeeds every new node is placed and served, and nothing else moved. */
  lemma AllOutputsGives(net: Net, arch: Arch, s: Ble, members: seq<nat>, idxes: seq<nat>, combs: seq<nat>)
    requires NetOk(net) && OutSide(net, arch, s) && GoodMembers(net, arch, s, members, idxes)
    requires forall j :: 0 <= j < |members| ==> members[j] < net.Size() && idxes[j] < |arch.cells|
    requires |idxes| == |members| == |combs| && members != []
    requires AllOutputs(net, arch, s, members, idxes, combs).Done?
    ensures Batch(net, arch, s, AllOutputs(net, arch, s, members, idxes, combs).ble, members, idxes, combs,
      DoneUpTo(|members|, |members|))
  {
    hide SatOutputs, Batch, GoodMembers, OutSide;
    assert Fits(arch, s) by { OutSideFits(net, arch, s); }
    var root := |members| - 1;
    NoneYet(net, arch, s, members, idxes, combs);
    StepOutputs(net, arch, s, s, members, idxes, combs, {}, root);
    assert {} + {root} == DoneUpTo(|members|, 0);
    OutputsFromGives(net, arch, s, SatOutputs(net, arch, s, idxes[root], members[root], combs[root]).ble, members,
      idxes, combs, 0);
  }

  lemma OutSideFits(net: Net, arch: Arch, s: Ble)
    requires OutSide(net, arch, s)
    ensures Fits(arch, s)
  {
  }
}
