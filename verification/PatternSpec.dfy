/** Which nodes form the pattern of a root (lgknds_sat_type), and why they are unmapped gates. */
module PatternSpec {
  import opened Seqs
  import opened LogicNetwork
  import opened NetworkPasses
  import opened BleState
  import opened SatSpec
  import opened CombCounts
  import opened LocalDfs
  import opened PackInvariant

  datatype MemberType = Normal | CombOnly

  /** The predecessor that input pin node i of the root contributes, if any. */
  function Candidate(net: Net, mode: MemberType, root: nat, i: nat): Option<nat>
    requires NetOk(net) && i < net.Size()
  {
    match mode
    case Normal =>
      if net.kind[i] == Latch && !net.mapped[net.ins[i][0]] then
        if net.ins[i][0] != root then Some(net.ins[i][0]) else None
      else if net.kind[i] != Pi && net.kind[i] != Po && !net.mapped[i] then Some(i)
      else None
    case CombOnly =>
      if net.kind[i] != Pi && net.kind[i] != Po && net.kind[i] != Latch && !net.mapped[i] then Some(i) else None
  }

  /** The predecessors from the first n inputs, each once, in the order they are met. */
  function SatPreds(net: Net, mode: MemberType, root: nat, n: nat): (r: seq<nat>)
    requires NetOk(net) && root < net.Size() && n <= |net.ins[root]|
    ensures |r| <= n
  {
    if n == 0 then []
    else
      var prev := SatPreds(net, mode, root, n - 1);
      var c := Candidate(net, mode, root, net.ins[root][n - 1]);
      if c.Some? && c.value !in prev then prev + [c.value] else prev
  }

  lemma NoPreds(net: Net, mode: MemberType, root: nat)
    requires NetOk(net) && root < net.Size()
    ensures SatPreds(net, mode, root, 0) == []
  {
  }

  lemma PredsNext(net: Net, mode: MemberType, root: nat, n: nat)
    requires NetOk(net) && root < net.Size() && n < |net.ins[root]|
    ensures var prev := SatPreds(net, mode, root, n);
      var c := Candidate(net, mode, root, net.ins[root][n]);
      SatPreds(net, mode, root, n + 1) == if c.Some? && c.value !in prev then prev + [c.value] else prev
  {
    hide Candidate, Agree;
  }

  ghost predicate Contributes(net: Net, mode: MemberType, root: nat, n: nat, x: nat)
    requires NetOk(net) && root < net.Size() && n <= |net.ins[root]|
  {
    exists k :: 0 <= k < n && Candidate(net, mode, root, net.ins[root][k]) == Some(x)
  }

  /** The predecessors are exactly the candidates, without duplicates. */
  lemma {:induction false} SatPredsAre(net: Net, mode: MemberType, root: nat, n: nat)
    requires NetOk(net) && root < net.Size() && n <= |net.ins[root]|
    ensures var r := SatPreds(net, mode, root, n);
      Distinct(r) && forall x: nat :: x in r <==> Contributes(net, mode, root, n, x)
  {
    hide Candidate;
    if n != 0 {
      SatPredsAre(net, mode, root, n - 1);
      var prev := SatPreds(net, mode, root, n - 1);
      var r := SatPreds(net, mode, root, n);
      var c := Candidate(net, mode, root, net.ins[root][n - 1]);
      forall x: nat ensures x in r <==> Contributes(net, mode, root, n, x) {
        assert x in prev <==> Contributes(net, mode, root, n - 1, x);
        if Contributes(net, mode, root, n - 1, x) {
          var k :| 0 <= k < n - 1 && Candidate(net, mode, root, net.ins[root][k]) == Some(x);
          assert Contributes(net, mode, root, n, x);
        }
        if c == Some(x) {
          assert Contributes(net, mode, root, n, x);
        }
      }
    }
  }

  /** A latch can become a pattern member in one case only: it is an unmapped input of the root
      whose driver is mapped already, and latches count (Normal). */
  lemma LatchMemberExactly(net: Net, mode: MemberType, root: nat)
    requires NetOk(net) && LatchesDriven(net) && root < net.Size()
    ensures (exists x :: x in SatPreds(net, mode, root, |net.ins[root]|) && net.IsLatch(x))
      <==> mode == Normal && exists k :: 0 <= k < |net.ins[root]| && StrandedLatch(net, net.ins[root][k])
  {
    hide Agree;
    SatPredsAre(net, mode, root, |net.ins[root]|);
    var preds := SatPreds(net, mode, root, |net.ins[root]|);
    if x :| x in preds && net.IsLatch(x) {
      assert Contributes(net, mode, root, |net.ins[root]|, x);
      var k :| 0 <= k < |net.ins[root]| && Candidate(net, mode, root, net.ins[root][k]) == Some(x);
      var i := net.ins[root][k];
      if net.kind[i] == Latch {
        assert net.IsGate(net.ins[i][0]);
      }
      assert StrandedLatch(net, net.ins[root][k]);
    }
    if mode == Normal && exists k :: 0 <= k < |net.ins[root]| && StrandedLatch(net, net.ins[root][k]) {
      var k :| 0 <= k < |net.ins[root]| && StrandedLatch(net, net.ins[root][k]);
      assert Candidate(net, mode, root, net.ins[root][k]) == Some(net.ins[root][k]);
      assert Contributes(net, mode, root, |net.ins[root]|, net.ins[root][k]);
      assert net.ins[root][k] in preds;
    }
  }

  /** x is i, or the driver of the latch i. */
  predicate Joins(net: Net, mode: MemberType, x: nat, i: nat)
    requires Shaped(net) && i < net.Size()
  {
    i == x || (mode == Normal && net.IsLatch(i) && net.ins[i] == [x])
  }

  /** A gate joins the pattern exactly if it is unmapped and drives the root, directly or, when latches count
      (Normal), through one latch. */
  lemma PredsExactly(net: Net, mode: MemberType, root: nat, x: nat)
    requires NetOk(net) && root < net.Size() && net.IsGate(x) && x != root
    ensures x in SatPreds(net, mode, root, |net.ins[root]|)
      <==> !net.mapped[x] && exists k :: 0 <= k < |net.ins[root]| && Joins(net, mode, x, net.ins[root][k])
  {
    hide Agree;
    SatPredsAre(net, mode, root, |net.ins[root]|);
    assert x in SatPreds(net, mode, root, |net.ins[root]|) <==> Contributes(net, mode, root, |net.ins[root]|, x);
  }

  /** An unmapped latch whose driver is mapped. */
  predicate StrandedLatch(net: Net, l: nat)
    requires NetOk(net) && l < net.Size()
  {
    net.kind[l] == Latch && !net.mapped[l] && net.mapped[net.ins[l][0]]
  }

  /** While latches follow their drivers, every predecessor is an unmapped gate other than the root. */
  lemma PredsAreOpenGates(net: Netlist, mode: MemberType, root: nat)
    requires LatchesDriven(net) && (mode == Normal ==> Following(net)) && root < net.Size() && net.IsGate(root)
    ensures forall x: nat :: x in SatPreds(net, mode, root, |net.ins[root]|) ==>
      net.IsGate(x) && !net.mapped[x] && x != root
  {
    SatPredsAre(net, mode, root, |net.ins[root]|);
    forall x: nat | x in SatPreds(net, mode, root, |net.ins[root]|)
      ensures net.IsGate(x) && !net.mapped[x] && x != root
    {
      assert Contributes(net, mode, root, |net.ins[root]|, x);
      var k :| 0 <= k < |net.ins[root]| && Candidate(net, mode, root, net.ins[root][k]) == Some(x);
      CandidateIsOpenGate(net, mode, root, k, x);
    }
  }

  lemma CandidateIsOpenGate(net: Netlist, mode: MemberType, root: nat, k: nat, x: nat)
    requires LatchesDriven(net) && (mode == Normal ==> Following(net)) && root < net.Size() && net.IsGate(root)
    requires k < |net.ins[root]| && Candidate(net, mode, root, net.ins[root][k]) == Some(x)
    ensures net.IsGate(x) && !net.mapped[x] && x != root
  {
    hide ListsOk, Agree;
    var i := net.ins[root][k];
    EdgeBothWays(net, i, root) by { PreparedOk(net); }
    var rk :| Ranked(net, rk);
    assert rk[i] < rk[root];
    if net.kind[i] == Latch {
      assert net.IsGate(net.ins[i][0]);
    }
  }

  lemma PreparedOk(net: Netlist)
    ensures NetOk(net)
  {
  }

  /** Ranks of the whole network rank the members of any pattern. */
  ghost function MemberRanks(rk: seq<nat>, nodes: seq<nat>): (r: seq<nat>)
    requires forall k :: 0 <= k < |nodes| ==> nodes[k] < |rk|
    ensures |r| == |nodes| && forall k :: 0 <= k < |nodes| ==> r[k] == rk[nodes[k]]
  {
    seq(|nodes|, k requires 0 <= k < |nodes| => rk[nodes[k]])
  }

  lemma MembersBounded(net: Net, rk: seq<nat>, nodes: seq<nat>)
    requires NetOk(net) && Ranked(net, rk)
    requires forall k :: 0 <= k < |nodes| ==> nodes[k] < |rk| && net.IsGate(nodes[k])
    ensures Bounded(net.ins, nodes, MemberRanks(rk, nodes))
  {
    forall d: nat, i: nat | Edge(net.ins, nodes, d, i) ensures MemberRanks(rk, nodes)[d] < MemberRanks(rk, nodes)[i] {
      var k :| 0 <= k < |net.ins[nodes[i]]| && net.ins[nodes[i]][k] == nodes[d];
      assert rk[net.ins[nodes[i]][k]] < rk[nodes[i]];
    }
  }
}
