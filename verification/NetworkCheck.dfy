/** The check of the network between cleaning and packing (check_lgkntwk), and what it rules out. */
module NetworkCheck {
  import opened Seqs
  import opened LogicNetwork
  import opened BufferEdits
  import opened NetworkPasses
  import opened LgkntwkEdits
  import opened DepthDfs

  /** constant(n) says that n is of a type that may do without inputs: a LUT, zero or one. */
  ghost predicate PassesCheck(net: Net, pis: seq<nat>, pos: seq<nat>, constant: nat -> bool)
    requires Shaped(net)
  {
    && (forall i :: 0 <= i < |pis| ==> pis[i] < net.Size() && net.kind[pis[i]] == Pi && net.ins[pis[i]] == [])
    && (forall i :: 0 <= i < |pos| ==> pos[i] < net.Size() && net.kind[pos[i]] == Po && net.outs[pos[i]] == [])
    && (forall i :: 0 <= i < |net.gates| ==> net.gates[i] < net.Size() && GatePasses(net, net.gates[i], constant))
    && (forall i :: 0 <= i < |net.latches| ==> net.latches[i] < net.Size() && LatchPasses(net, net.latches[i]))
  }

  predicate GatePasses(net: Net, n: nat, constant: nat -> bool)
    requires n < net.Size() && n < |net.ins| && n < |net.outs|
  {
    net.kind[n] != Buf && (net.ins[n] == [] ==> constant(n)) && net.outs[n] != []
  }

  predicate LatchPasses(net: Net, n: nat)
    requires n < net.Size() && n < |net.ins| && n < |net.outs|
  {
    net.kind[n] == Latch && net.ins[n] != [] && net.outs[n] != []
  }

  ghost predicate InRange(net: Net, s: seq<nat>) {
    forall i :: 0 <= i < |s| ==> s[i] < net.Size()
  }

  /** check_lgkntwk; ok is false where the source prints an error and exits. */
  method CheckNetwork(nw: Lgkntwk, pis: seq<nat>, pos: seq<nat>, constant: nat -> bool) returns (ok: bool)
    requires Shaped(nw.State()) && InRange(nw.State(), pis) && InRange(nw.State(), pos)
    requires InRange(nw.State(), nw.gates) && InRange(nw.State(), nw.latches)
    ensures ok <==> PassesCheck(nw.State(), pis, pos, constant)
  {
    for im := 0 to |pis|
      invariant forall i :: 0 <= i < im ==> nw.kind[pis[i]] == Pi && nw.ins[pis[i]] == []
    {
      if nw.kind[pis[im]] != Pi || nw.ins[pis[im]] != [] {
        return false;
      }
    }
    for im := 0 to |pos|
      invariant forall i :: 0 <= i < im ==> nw.kind[pos[i]] == Po && nw.outs[pos[i]] == []
    {
      if nw.kind[pos[im]] != Po || nw.outs[pos[im]] != [] {
        return false;
      }
    }
    for im := 0 to |nw.gates|
      invariant forall i :: 0 <= i < im ==> GatePasses(nw.State(), nw.gates[i], constant)
    {
      var n := nw.gates[im];
      if nw.kind[n] == Buf || (|nw.ins[n]| == 0 && !constant(n)) || |nw.outs[n]| < 1 {
        assert !GatePasses(nw.State(), nw.gates[im], constant);
        return false;
      }
    }
    for im := 0 to |nw.latches|
      invariant forall i :: 0 <= i < im ==> LatchPasses(nw.State(), nw.latches[i])
    {
      var n := nw.latches[im];
      if nw.kind[n] != Latch || |nw.ins[n]| < 1 || |nw.outs[n]| < 1 {
        assert !LatchPasses(nw.State(), nw.latches[im]);
        return false;
      }
    }
    ok := true;
  }

  /** Every gate and latch drives something. */
  ghost predicate EverythingRead(net: Net)
    requires Shaped(net)
  {
    forall n: nat {:trigger net.outs[n]} :: net.IsGate(n) || net.IsLatch(n) ==> net.outs[n] != []
  }

  ghost predicate ConstantsMay(net: Net, constant: nat -> bool)
    requires Shaped(net)
  {
    forall n: nat {:trigger net.ins[n]} :: net.IsGate(n) && net.ins[n] == [] ==> constant(n)
  }

  /** On a network in order and without buffers the check fails exactly on a gate or latch that drives
      nothing, or on a gate without inputs that is no constant. */
  lemma CheckExactly(net: Netlist, pis: seq<nat>, pos: seq<nat>, constant: nat -> bool)
    requires forall n: nat :: n < net.Size() ==> net.kind[n] != Buf
    requires forall n: nat :: n in pis <==> n < net.Size() && net.kind[n] == Pi
    requires forall n: nat :: n in pos <==> n < net.Size() && net.kind[n] == Po
    ensures InRange(net, pis) && InRange(net, pos) && InRange(net, net.gates) && InRange(net, net.latches)
    ensures PassesCheck(net, pis, pos, constant) <==> EverythingRead(net) && ConstantsMay(net, constant)
  {
    hide Agree, Acyclic, Distinct;
    assert forall i :: 0 <= i < |pis| ==> pis[i] in pis;
    assert forall i :: 0 <= i < |pos| ==> pos[i] in pos;
    assert forall i :: 0 <= i < |net.gates| ==> net.gates[i] in net.gates;
    assert forall i :: 0 <= i < |net.latches| ==> net.latches[i] in net.latches;
    if PassesCheck(net, pis, pos, constant) {
      forall n: nat | net.IsGate(n) ensures GatePasses(net, n, constant) {
        assert n in net.gates;
        var i :| 0 <= i < |net.gates| && net.gates[i] == n;
      }
      forall n: nat | net.IsLatch(n) ensures LatchPasses(net, n) {
        assert n in net.latches;
        var i :| 0 <= i < |net.latches| && net.latches[i] == n;
      }
    }
  }

  // ----- what the check is good for

  /** Buffers before latches do not take anybody's last reader away. */
  lemma BufferKeepsRead(net: Netlist, strict: bool, blendNum: nat, latch: nat)
    requires net.IsLatch(latch) && EverythingRead(net)
    ensures EverythingRead(BufferAt(net, strict, blendNum, latch))
  {
    hide NeedsBuf, SameMeaning, Agree, ArityOk, ListsOk, Acyclic, BufferLatch;
    if NeedsBuf(net, strict, blendNum, latch) {
      BufferLatchEdges(net, latch);
    }
  }

  lemma {:induction false} BuffersKeepRead(net: Netlist, strict: bool, blendNum: nat, k: nat)
    requires k <= |net.latches| && EverythingRead(net)
    ensures EverythingRead(BufferFirst(net, strict, blendNum, k))
  {
    hide BufferAt, EverythingRead, SameMeaning;
    if k > 0 {
      BuffersKeepRead(net, strict, blendNum, k - 1);
      var p := BufferFirst(net, strict, blendNum, k - 1);
      LatchListed(p, k - 1);
      BufferKeepsRead(p, strict, blendNum, p.latches[k - 1]);
    }
  }

  /** When everything is read the depth search cannot run into its error exit. */
  lemma NoDeadEnd(net: Netlist)
    requires EverythingRead(net)
    ensures !DeadEndReached(net)
  {
    hide Agree, Acyclic, ListsOk;
    forall n: nat, d: nat | d > 0 && n < net.Size() && ReachedBy(net, n, d) ensures !DeadEnd(net, n) {
      var p :| SourceWalk(net, p, n) && |p| == d + 1;
      assert p[|p| - 2 + 1] in net.outs[p[|p| - 2]];
      EdgeBothWays(net, p[|p| - 2], n);
    }
  }
}
