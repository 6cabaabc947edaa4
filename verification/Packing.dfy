/** Pattern packing on the mutable network and BLE records (packing.c and the callers in sat_api.c). */
module Packing {
  import opened Seqs
  import opened LogicNetwork
  import opened BufferEdits
  import opened NetworkPasses
  import opened LgkntwkEdits
  import opened BleState
  import opened SatSpec
  import opened BleRecord
  import opened BleLegality
  import opened BleOutputs
  import opened CombCounts
  import opened BleLegal
  import opened SatSolver
  import opened LocalDfs
  import opened PackRun
  import opened PackInvariant
  import opened PatternSpec

  /** The first loop of mark_lgknd_outputs_mapped: the served latch, and the last unmapped one. */
  method FindLatches(nw: Lgkntwk, ble: BleInfo, cur: nat) returns (served: Option<nat>, last: Option<nat>)
    requires Shaped(nw.State()) && cur < |nw.kind|
    ensures served == FirstServedLatch(nw.State(), ble.State(), nw.outs[cur])
    ensures served.None? ==> last == LastLatch(nw.State(), nw.outs[cur])
  {
    ghost var net, s := nw.State(), ble.State();
    var fan := nw.outs[cur];
    last := None;
    for im := 0 to |fan|
      invariant FirstServedLatch(net, s, fan) == FirstServedLatch(net, s, fan[im..])
      invariant last == LastLatch(net, fan[..im])
    {
      assert fan[im..][0] == fan[im] && fan[im..][1..] == fan[im + 1..];
      assert fan[..im + 1][..im] == fan[..im];
      if nw.kind[fan[im]] == Latch && !nw.mapped[fan[im]] {
        last := Some(fan[im]);
        for io := 0 to ble.outputs.Length
          invariant forall o :: 0 <= o < io ==> OutNodes(s)[o] != Some(fan[im])
        {
          if ble.outputs[io].node == Some(fan[im]) {
            assert OutNodes(s)[io] == Some(fan[im]);
            return Some(fan[im]), last;
          }
        }
      }
    }
    assert fan[..|fan|] == fan;
    served := None;
  }

  /** The buffer added before a latch that found no output. */
  method AddFlaggedBuf(nw: Lgkntwk, latch: nat)
    requires NetOk(nw.State()) && latch < |nw.kind| && nw.kind[latch] == Latch && nw.gates != []
    modifies nw
    ensures nw.State() == BufferFlagged(old(nw.State()), latch)
  {
    ghost var net := nw.State();
    BufferLatchIs(net, latch);
    nw.BufferOne(latch);
    var buf := nw.ins[latch][0];
    assert buf == net.Size();
    nw.tried := nw.tried[buf := [false, false]];
  }

  /** mark_lgknd_outputs_mapped with add_buf set; false when a buffer was added. */
  method MarkOutputsMapped(nw: Lgkntwk, ble: BleInfo, bleNum: nat, cur: nat) returns (r: bool)
    requires NetOk(nw.State()) && cur < |nw.kind| && nw.gates != []
    modifies nw
    ensures nw.State() == MarkOutputs(old(nw.State()), ble.State(), bleNum, cur)
    ensures !r <==> |nw.kind| > |old(nw.kind)|
  {
    hide FirstServedLatch, LastLatch;
    ghost var net := nw.State();
    var needBuf := nw.kind[cur] != Buf;
    var served, last := FindLatches(nw, ble, cur);
    if served.Some? {
      FanoutInRange(net, cur, served.value);
      nw.mapped := nw.mapped[served.value := true];
      nw.bleOf := nw.bleOf[served.value := bleNum];
      return true;
    }
    if last.Some? && needBuf {
      for im := 0 to |nw.outs[cur]|
        invariant nw.State() == net
        invariant forall i :: 0 <= i < im ==> net.kind[net.outs[cur][i]] != Buf
      {
        if nw.kind[nw.outs[cur][im]] == Buf {
          assert HasBuf(net, net.outs[cur]);
          return true;
        }
      }
      assert !HasBuf(net, net.outs[cur]);
      FanoutInRange(net, cur, last.value);
      BufferLatchIs(net, last.value);
      AddFlaggedBuf(nw, last.value);
      return false;
    }
    return true;
  }

  /** The loop of run_sat_solver after a success. */
  method CommitMembers(nw: Lgkntwk, arch: Arch, ble: BleInfo, bleNum: nat, members: seq<nat>, idxes: seq<nat>,
                       ghost bles: seq<Ble>, ghost sole: bool)
    requires |members| == |idxes| && Distinct(members) && bleNum < |bles| && bles[bleNum] == ble.State()
    requires PackInv(nw.State(), arch, bles, Elements(members), bleNum, sole)
    requires forall i :: 0 <= i < |members| ==>
      idxes[i] < |bles[bleNum].cells| && bles[bleNum].cells[idxes[i]].node == Some(members[i])
    modifies nw
    ensures PackInv(nw.State(), arch, bles, {}, bleNum, sole)
    ensures members != [] ==> Progress(old(nw.State()), nw.State())
  {
    hide PackInv, MarkOutputs, Progress;
    ghost var start := nw.State();
    assert members[0..] == members;
    for im := 0 to |members|
      invariant PackInv(nw.State(), arch, bles, Elements(members[im..]), bleNum, sole)
      invariant im > 0 ==> Progress(start, nw.State())
      invariant im == 0 ==> nw.State() == start
    {
      ghost var net := nw.State();
      NextWaiting(members, im);
      CommitKeeps(net, arch, bles, Elements(members[im..]), bleNum, sole, members[im], idxes[im]);
      WaitingIsListed(net, arch, bles, Elements(members[im..]), bleNum, sole, members[im]);
      CommitProgress(net, ble.State(), bleNum, idxes[im], members[im]);
      PlacedIsOk(net, bleNum, idxes[im], members[im]);
      nw.mapped := nw.mapped[members[im] := true];
      nw.bleOf := nw.bleOf[members[im] := bleNum];
      nw.cellOf := nw.cellOf[members[im] := idxes[im]];
      var marked := MarkOutputsMapped(nw, ble, bleNum, members[im]);
      assert nw.State() == CommitMember(net, ble.State(), bleNum, idxes[im], members[im]);
      if im > 0 {
        ProgressTrans(start, net, nw.State());
      }
    }
    assert Elements(members[|members|..]) == {};
  }

  /** A waiting node is in the gate array, which is therefore not empty. */
  lemma WaitingIsListed(net: Net, arch: Arch, bles: seq<Ble>, pend: set<nat>, pb: nat, sole: bool, x: nat)
    requires PackInv(net, arch, bles, pend, pb, sole) && x in pend
    ensures x in net.gates
  {
    hide Agree, Acyclic, AllLegal, PlacedFlagged, FlaggedPlaced, LatchFlagged, FlaggedLatch, Sole, Following,
      LatchesDriven,
      BufsFeedLatches, LatchServed;
  }

  /** check_sat as seen from outside: predecessor cells for a pattern of the given size, or none. */
  type CellFinder = (Ble, nat, nat) -> Option<seq<nat>>

  /** The cells it names are as many as asked for, different, unused, and not the root's cell. */
  ghost predicate Allots(find: CellFinder) {
    forall s: Ble, cell: nat, n: nat :: find(s, cell, n).Some? && cell < |s.cells| && s.cells[cell].node.None? ==>
      Allotted(s, cell, n, find(s, cell, n).value)
  }

  ghost predicate Allotted(s: Ble, cell: nat, n: nat, idxes: seq<nat>)
    requires cell < |s.cells|
  {
    |idxes| == n && Distinct(idxes + [cell]) && forall i :: 0 <= i < n ==>
      idxes[i] < |s.cells| && s.cells[idxes[i]].node.None?
  }

  lemma AllotsPattern(net: Net, s: Ble, cell: nat, members: seq<nat>, idxes: seq<nat>)
    requires Shaped(net) && cell < |s.cells| && s.cells[cell].node.None? && members != [] && Distinct(members)
    requires Allotted(s, cell, |members| - 1, idxes)
    requires forall i :: 0 <= i < |members| ==> net.IsGate(members[i]) && !net.mapped[members[i]]
    ensures Pattern(net, s, members, idxes + [cell])
  {
  }

  /** The pattern can be put into the BLE with its root in the cell: cells are found for the others, and
      the solver succeeds with them. */
  ghost predicate Solvable(net: Net, arch: Arch, s: Ble, members: seq<nat>, cell: nat, find: CellFinder)
    requires members != []
  {
    && Shaped(net) && Fits(arch, s) && SlotsInRange(net, s)
    && find(s, cell, |members| - 1).Some?
    && var idxes := find(s, cell, |members| - 1).value + [cell];
       && |idxes| == |members|
       && (forall j :: 0 <= j < |members| ==> members[j] < net.Size() && idxes[j] < |arch.cells|)
       && MiniSat(net, arch, s, members, idxes).Done?
  }

  /** The cell has been filled and no other emptied. */
  ghost predicate Filled(s: Ble, t: Ble, cell: nat) {
    && |t.cells| == |s.cells| && cell < |s.cells| && s.cells[cell].node.None? && t.cells[cell].node.Some?
    && forall c :: 0 <= c < |s.cells| && s.cells[c].node.Some? ==> t.cells[c] == s.cells[c]
  }

  /** run_sat_solver: all or nothing, and all exactly if the pattern can be put into the BLE. A success
      maps every member, serves or buffers its latch, keeps the invariant and makes progress; a failure
      changes neither the BLE nor the network. */
  method RunSatSolver(nw: Lgkntwk, arch: Arch, ble: BleInfo, bleNum: nat, members: seq<nat>, cell: nat,
      find: CellFinder,
                      ghost others: seq<Ble>, ghost sole: bool) returns (ok: bool)
    requires ble.Apart() && bleNum == |others| && Allots(find)
    requires PackInv(nw.State(), arch, others + [ble.State()], {}, bleNum, sole)
    requires cell < ble.cells.Length && ble.cells[cell].node.None? && members != [] && Distinct(members)
    requires forall i :: 0 <= i < |members| ==>
      nw.State().IsGate(members[i]) && members[i] < |nw.mapped| && !nw.mapped[members[i]]
    modifies nw, ble.inputs, ble.ports, ble.cells, ble.outputs
    ensures PackInv(nw.State(), arch, others + [ble.State()], {}, bleNum, sole)
    ensures !ok ==> nw.State() == old(nw.State()) && ble.State() == old(ble.State())
    ensures ok ==> Progress(old(nw.State()), nw.State()) && Filled(old(ble.State()), ble.State(), cell)
    ensures ok <==> Solvable(old(nw.State()), arch, old(ble.State()), members, cell, find)
  {
    hide PackInv, Progress, Committed, Ready, MiniSat, Pattern, Fits, SlotsInRange, Elements, Allotted, Shaped, Filled;
    ghost var net, s := nw.State(), ble.State();
    ghost var bles := others + [s];
    InvShape(net, arch, bles, bleNum, sole);
    var preds := find(ble.State(), cell, |members| - 1);
    if preds.None? {
      return false;
    }
    var idxes := preds.value + [cell];
    AllotsPattern(net, s, cell, members, preds.value);
    PatternReady(net, arch, bles, bleNum, sole, bleNum, members, idxes);
    MiniSatCommits(net, arch, s, members, idxes);
    ok := MiniSatSolver(nw.State(), arch, ble, members, idxes);
    if ok {
      ghost var t := ble.State();
      assert Solved(net, arch, bles, bleNum, sole, bleNum, members, idxes, t);
      SolvedKeeps(net, arch, bles, bleNum, sole, bleNum, members, idxes, t);
      assert bles[bleNum := t] == others + [t];
      CommittedPlaces(net, arch, s, t, members, idxes);
      CommittedFills(net, arch, s, t, members, idxes, cell);
      CommitMembers(nw, arch, ble, bleNum, members, idxes, others + [t], sole);
    }
  }

  lemma CommittedFills(net: Net, arch: Arch, s: Ble, t: Ble, members: seq<nat>, idxes: seq<nat>, cell: nat)
    requires Shaped(net) && Fits(arch, s) && Committed(net, arch, s, t, members, idxes) && members != []
    requires idxes[|idxes| - 1] == cell && Pattern(net, s, members, idxes)
    ensures Filled(s, t, cell)
  {
    hide Legal, LatchServed, OnOutput, Expected, LatchesSettled;
  }

  lemma CommittedPlaces(net: Net, arch: Arch, s: Ble, t: Ble, members: seq<nat>, idxes: seq<nat>)
    requires Shaped(net) && Fits(arch, s) && Committed(net, arch, s, t, members, idxes)
    ensures |idxes| == |members| && forall i :: 0 <= i < |members| ==>
      idxes[i] < |t.cells| && t.cells[idxes[i]].node == Some(members[i])
  {
    hide Legal, LatchServed, OnOutput, Expected, LatchesSettled;
  }
}
