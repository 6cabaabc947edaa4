/** The comb counts of the patterns the packer picks. */
module PatternCounts {
  import opened Seqs
  import opened LogicNetwork
  import opened NetworkPasses
  import opened BleState
  import opened SatSpec
  import opened BleLegality
  import opened BleOutputs
  import opened CombCounts
  import opened LocalDfs
  import opened PackInvariant
  import opened PatternSpec
  import opened PatternPick

  /** In combinational mode every member but the root is an input of the root. */
  lemma CombMemberFeedsRoot(net: Net, root: nat, x: nat)
    requires NetOk(net) && root < net.Size() && x in SatPreds(net, CombOnly, root, |net.ins[root]|)
    ensures x in net.ins[root]
  {
    SatPredsAre(net, CombOnly, root, |net.ins[root]|);
    assert Contributes(net, CombOnly, root, |net.ins[root]|, x);
    var k :| 0 <= k < |net.ins[root]| && Candidate(net, CombOnly, root, net.ins[root][k]) == Some(x);
  }

  /** A pattern is in topological order at every member, except perhaps, in normal mode, at its root. */
  lemma PatternOrder(net: Netlist, mode: MemberType, members: seq<nat>, i: nat)
    requires PatternOf(net, mode, members) && i < |members| && (mode == CombOnly || i < |members| - 1)
    ensures NoEarlierConsumer(net, members, i)
  {
    hide Agree, ListsOk, SatPreds, Distinct;
    var last := |members| - 1;
    var rk :| Ranked(net, rk);
    forall j | 0 <= j <= i ensures members[i] !in net.ins[members[j]] {
      InputRank(net, rk, members[j], members[i]);
      if i < last {
        assert !Edge(net.ins, members[..last], i, j);
      } else if j < last {
        CombMemberFeedsRoot(net, members[last], members[j]);
        InputRank(net, rk, members[last], members[j]);
      }
    }
  }

  lemma InputRank(net: Net, rk: seq<nat>, v: nat, u: nat)
    requires Shaped(net) && Ranked(net, rk) && net.IsGate(v) && u < net.Size()
    ensures u in net.ins[v] ==> rk[u] < rk[v]
  {
  }

  /** So the counts of a picked pattern are exact: for every member in combinational mode, for every
      member but the root in normal mode. */
  lemma PatternCountsExact(net: Netlist, mode: MemberType, arch: Arch, s: Ble, members: seq<nat>, idxes: seq<nat>,
      i: nat)
    requires PatternOf(net, mode, members) && i < |members| && (mode == CombOnly || i < |members| - 1)
    requires CellsOk(net, s) && GoodMembers(net, arch, s, members, idxes) && SlotsInRange(net, s)
    ensures CombNum(net, s, members, i) == EntriesIn(net.outs[members[i]], members + PlacedNodes(s.cells))
  {
    hide PatternOf, CombNum, EntriesIn, CellsOk, GoodMembers, Agree, ListsOk;
    PatternOrder(net, mode, members, i);
    CombNumExactly(net, arch, s, members, idxes, i);
  }
}
