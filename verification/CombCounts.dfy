/** The counting behind "no net is lost": pins driven inside the BLE against the whole fan-out. */
module CombCounts {
  import opened Seqs
  import opened LogicNetwork
  import opened NetworkPasses
  import opened BleState
  import opened SatSpec
  import opened BleLegality
  import opened BleOutputs

  /** How many entries of the fan-out list are in ms. */
  function EntriesIn(fan: seq<nat>, ms: seq<nat>): nat {
    if fan == [] then 0 else (if fan[0] in ms then 1 else 0) + EntriesIn(fan[1..], ms)
  }

  lemma {:induction false} EntriesInCons(fan: seq<nat>, m: nat, ms: seq<nat>)
    requires m !in ms
    ensures EntriesIn(fan, [m] + ms) == Count(fan, m) + EntriesIn(fan, ms)
  {
    if fan != [] {
      EntriesInCons(fan[1..], m, ms);
    }
  }

  lemma {:induction false} EntriesInNil(fan: seq<nat>)
    ensures EntriesIn(fan, []) == 0
  {
    if fan != [] {
      EntriesInNil(fan[1..]);
    }
  }

  ghost predicate Gates(net: Net, ms: seq<nat>) {
    forall i :: 0 <= i < |ms| ==> net.IsGate(ms[i])
  }

  /** Because the two edge lists agree, pins driven in ms are fan-out entries that are in ms. */
  lemma {:induction false} PinsAreEntries(net: Net, x: nat, ms: seq<nat>)
    requires NetOk(net) && x < net.Size() && Gates(net, ms) && Distinct(ms)
    ensures PinsDriven(net, x, ms) == EntriesIn(net.outs[x], ms)
  {
    if ms == [] {
      EntriesInNil(net.outs[x]);
    } else {
      PinsAreEntries(net, x, ms[1..]);
      assert ms == [ms[0]] + ms[1..];
      assert ms[0] !in ms[1..];
      EntriesInCons(net.outs[x], ms[0], ms[1..]);
      assert Count(net.outs[x], ms[0]) == Count(net.ins[ms[0]], x);
    }
  }

  /** Gates are no latches, so the entries in ms are at most the combinational fan-out, and they are
      all of it exactly when every non-latch in the fan-out is in ms. */
  lemma {:induction false} EntriesAgainstFanout(net: Net, fan: seq<nat>, ms: seq<nat>)
    requires Gates(net, ms)
    ensures EntriesIn(fan, ms) <= NonLatches(net, fan)
    ensures EntriesIn(fan, ms) == NonLatches(net, fan) <==>
      forall i :: 0 <= i < |fan| && !net.IsLatch(fan[i]) ==> fan[i] in ms
  {
    if fan != [] {
      EntriesAgainstFanout(net, fan[1..], ms);
      if fan[0] in ms {
        var j :| 0 <= j < |ms| && ms[j] == fan[0];
        assert net.IsGate(ms[j]);
      }
      assert forall i :: 1 <= i < |fan| ==> fan[i] == fan[1..][i - 1];
    }
  }

  lemma {:induction false} PlacedDistinct(net: Net, cells: seq<CellSlot>)
    requires forall c, d :: 0 <= c < d < |cells| && cells[c].node.Some? ==> cells[c].node != cells[d].node
    ensures Distinct(PlacedNodes(cells))
  {
    if cells != [] {
      PlacedDistinct(net, cells[1..]);
      PlacedNodesAre(cells[1..]);
      var r, t := PlacedNodes(cells), PlacedNodes(cells[1..]);
      if r != t {
        assert r == [cells[0].node.value] + t;
        assert forall c :: 0 <= c < |cells[1..]| ==> cells[1..][c] == cells[c + 1];
        assert cells[0].node.value !in t;
      }
    }
  }

  /** The later new nodes followed by the nodes already placed: all different, all gates. */
  lemma LaterNodes(net: Net, arch: Arch, s: Ble, members: seq<nat>, idxes: seq<nat>, i: nat)
    requires CellsOk(net, s) && GoodMembers(net, arch, s, members, idxes) && i <= |members|
    ensures var later := members[i..] + PlacedNodes(s.cells); Distinct(later) && Gates(net, later)
    ensures forall n: nat :: n in PlacedNodes(s.cells) <==> InCells(s, n)
  {
    PlacedDistinct(net, s.cells);
    PlacedNodesAre(s.cells);
    forall n: nat ensures n in PlacedNodes(s.cells) <==> InCells(s, n) {
      InCellsIs(s, n);
    }
    var placed := PlacedNodes(s.cells);
    var later := members[i..] + placed;
    forall j | 0 <= j < |later| ensures net.IsGate(later[j]) {
      if j >= |members| - i {
        assert later[j] == placed[j - (|members| - i)] && later[j] in placed;
        var c :| 0 <= c < |s.cells| && s.cells[c].used && s.cells[c].node == Some(later[j]);
      }
    }
    forall j, k | 0 <= j < k < |later| ensures later[j] != later[k] {
      if j < |members| - i && k >= |members| - i {
        assert later[k] == placed[k - (|members| - i)] && later[k] in placed;
        assert !InCells(s, members[i + j]);
      }
    }
  }

  ghost predicate SlotsInRange(net: Net, s: Ble) {
    forall c :: 0 <= c < |s.cells| && s.cells[c].node.Some? ==> s.cells[c].node.value < net.Size()
  }

  /** The comb count never exceeds the fan-out, so the negative-count exit cannot be taken; and when
      it equals the fan-out, every non-latch the node drives is in the BLE. */
  lemma CombNumAgainstFanout(net: Net, arch: Arch, s: Ble, members: seq<nat>, idxes: seq<nat>, i: nat)
    requires NetOk(net) && CellsOk(net, s) && GoodMembers(net, arch, s, members, idxes) && i < |members|
      && SlotsInRange(net, s)
    ensures CombNum(net, s, members, i) <= CombFanout(net, members[i])
    ensures CombNum(net, s, members, i) == CombFanout(net, members[i]) <==>
      forall f :: f in net.outs[members[i]] && !net.IsLatch(f) ==> f in members[i + 1..] || InCells(s, f)
  {
    LaterNodes(net, arch, s, members, idxes, i + 1);
    var later := members[i + 1..] + PlacedNodes(s.cells);
    PinsAreEntries(net, members[i], later);
    EntriesAgainstFanout(net, net.outs[members[i]], later);
  }

  /** No member up to i has member i as an input: the pattern is in topological order there. */
  ghost predicate NoEarlierConsumer(net: Net, members: seq<nat>, i: nat)
    requires Shaped(net) && i < |members| && forall j :: 0 <= j < |members| ==> members[j] < net.Size()
  {
    forall j :: 0 <= j <= i ==> members[i] !in net.ins[members[j]]
  }

  lemma {:induction false} NoPinsDriven(net: Net, x: nat, ms: seq<nat>)
    requires Shaped(net) && forall j :: 0 <= j < |ms| ==> ms[j] < net.Size()
    ensures PinsDriven(net, x, ms) == 0 <==> forall j :: 0 <= j < |ms| ==> x !in net.ins[ms[j]]
  {
    if ms != [] {
      NoPinsDriven(net, x, ms[1..]);
      CountPositive(net.ins[ms[0]], x);
      assert forall j :: 1 <= j < |ms| ==> ms[j] == ms[1..][j - 1];
    }
  }

  lemma {:induction false} PinsDrivenAppend(net: Net, x: nat, ms: seq<nat>, ns: seq<nat>)
    requires Shaped(net) && (forall j :: 0 <= j < |ms| ==> ms[j] < net.Size())
      && (forall j :: 0 <= j < |ns| ==> ns[j] < net.Size())
    ensures PinsDriven(net, x, ms + ns) == PinsDriven(net, x, ms) + PinsDriven(net, x, ns)
  {
    if ms == [] {
      assert ms + ns == ns;
    } else {
      assert (ms + ns)[1..] == ms[1..] + ns;
      PinsDrivenAppend(net, x, ms[1..], ns);
    }
  }

  lemma MembersInside(net: Net, arch: Arch, s: Ble, members: seq<nat>, idxes: seq<nat>)
    requires NetOk(net) && GoodMembers(net, arch, s, members, idxes)
    ensures forall j :: 0 <= j < |members| ==> members[j] < net.Size()
  {
    hide Agree, ArityOk;
  }

  /** The count is the fan-out entries that lie in the BLE afterwards exactly when the pattern is in
      topological order at this member; otherwise it is smaller. */
  lemma CombNumExactly(net: Net, arch: Arch, s: Ble, members: seq<nat>, idxes: seq<nat>, i: nat)
    requires NetOk(net) && CellsOk(net, s) && GoodMembers(net, arch, s, members, idxes) && i < |members|
      && SlotsInRange(net, s)
    ensures CombNum(net, s, members, i) <= EntriesIn(net.outs[members[i]], members + PlacedNodes(s.cells))
    ensures CombNum(net, s, members, i) == EntriesIn(net.outs[members[i]], members + PlacedNodes(s.cells))
       <==> NoEarlierConsumer(net, members, i)
  {
    hide PinsDriven, EntriesIn, PlacedNodes, CellsOk, Agree, ArityOk, InCells, Count, GoodMembers, Shaped, SlotsInRange;
    MembersInside(net, arch, s, members, idxes);
    LaterNodes(net, arch, s, members, idxes, 0);
    LaterNodes(net, arch, s, members, idxes, i + 1);
    var x := members[i];
    var later := members[i + 1..] + PlacedNodes(s.cells);
    assert members[0..] == members;
    assert members + PlacedNodes(s.cells) == members[..i + 1] + later;
    NoPinsDriven(net, x, members[..i + 1]);
    assert forall j :: 0 <= j <= i ==> members[..i + 1][j] == members[j];
    PinsDrivenAppend(net, x, members[..i + 1], later);
    PinsAreEntries(net, x, members + PlacedNodes(s.cells));
  }

  ghost predicate BufsFeedLatches(net: Net)
    requires Shaped(net)
  {
    forall b: nat {:trigger net.outs[b]} :: b < net.Size() && net.kind[b] == Buf ==>
      |net.outs[b]| == 1 && net.IsLatch(net.outs[b][0])
  }

  lemma BufHasNoCombFanout(net: Net, b: nat)
    requires Shaped(net) && BufsFeedLatches(net) && b < net.Size() && net.kind[b] == Buf
    ensures CombFanout(net, b) == 0
  {
    assert net.outs[b][1..] == [];
    assert NonLatches(net, net.outs[b][1..]) == 0;
  }

  lemma {:induction false} OutputsFromNoExit(net: Net, arch: Arch, s: Ble, members: seq<nat>, idxes: seq<nat>,
      combs: seq<nat>, i: nat)
    requires Shaped(net) && BufsFeedLatches(net) && Fits(arch, s) && |idxes| == |members| == |combs| && i < |members|
    requires forall j :: 0 <= j < |members| ==> members[j] < net.Size() && idxes[j] < |arch.cells|
    requires forall j :: 0 <= j < |members| ==> combs[j] <= CombFanout(net, members[j])
    ensures !OutputsFrom(net, arch, s, members, idxes, combs, i).Exits?
    decreases |members| - i
  {
    hide SatOutputs;
    if i < |members| - 1 {
      SatOutputsExits(net, arch, s, idxes[i], members[i], combs[i]);
      if net.kind[members[i]] == Buf {
        BufHasNoCombFanout(net, members[i]);
      }
      var r := SatOutputs(net, arch, s, idxes[i], members[i], combs[i]);
      if r.Done? {
        OutputsFromNoExit(net, arch, r.ble, members, idxes, combs, i + 1);
      }
    }
  }

  /** mini_sat_solver never takes an error exit on a network whose edge lists agree. */
  lemma MiniSatNoExit(net: Net, arch: Arch, s: Ble, members: seq<nat>, idxes: seq<nat>)
    requires NetOk(net) && BufsFeedLatches(net) && Fits(arch, s) && CellsOk(net, s)
      && GoodMembers(net, arch, s, members, idxes) && members != []
    requires SlotsInRange(net, s)
    ensures !MiniSat(net, arch, s, members, idxes).Exits?
  {
    hide SatOutputs, CombNum, RemapFrom;
    var combs := CombNums(net, s, members);
    forall j | 0 <= j < |members| ensures combs[j] <= CombFanout(net, members[j]) {
      CombNumAgainstFanout(net, arch, s, members, idxes, j);
    }
    var root := |members| - 1;
    SatOutputsExits(net, arch, s, idxes[root], members[root], combs[root]);
    if net.kind[members[root]] == Buf {
      BufHasNoCombFanout(net, members[root]);
    }
    var r := SatOutputs(net, arch, s, idxes[root], members[root], combs[root]);
    if r.Done? {
      OutputsFromNoExit(net, arch, r.ble, members, idxes, combs, 0);
    }
  }
}
