/** On a roomy architecture the packing loop never gives up. */
module RoomyPacking {
  import opened Seqs
  import opened LogicNetwork
  import opened NetworkPasses
  import opened BleState
  import opened SatSpec
  import opened CombCounts
  import opened PackRun
  import opened PackInvariant
  import opened PatternSpec
  import opened PatternScale
  import opened PatternPick
  import opened Packing
  import opened Refusals
  import opened RoomyCells
  import opened PatternPacking

  /** Cell c is roomy for every gate; a blank BLE looks for a seed, every gate is a candidate for one, and
      none is turned away for want of cells for its predecessors when it comes alone. */
  ghost predicate Generous(net: Net, arch: Arch, advice: Advice, c: nat)
    requires Shaped(net)
  {
    && Roomy(arch, c, 1) && (forall g: nat {:trigger net.ins[g]} :: net.IsGate(g) ==> Roomy(arch, c, |net.ins[g]|))
    && (forall n: Net :: advice.weigh(n, InitBle(arch), []).average == -1.0)
    && (forall n: Net, g: nat :: advice.weigh(n, InitBle(arch), [g]).average > -1.0)
    && advice.find(InitBle(arch), c, 0) == Some([])
  }

  /** A gate on its own cannot be hopeless there. */
  lemma NotHopeless(net: Net, arch: Arch, advice: Advice, opts: Options, c: nat, g: nat)
    requires Prepared(net) && BufsFeedLatches(net) && net.IsGate(g) && Shaped(net) && Roomy(arch, c, |net.ins[g]|)
    requires advice.weigh(Bare(net), InitBle(arch), []).average == -1.0
    requires advice.weigh(Bare(net), InitBle(arch), [g]).average > -1.0
    requires advice.find(InitBle(arch), c, 0) == Some([])
    ensures !Hopeless(net, arch, InitBle(arch), c, advice, opts, [g])
  {
    hide MiniSat, InitBle, BufsFeedLatches, ListsOk, Acyclic, Agree, ArityOk, Roomy, SlotsInRange;
    GateFits(net, arch, c, g);
    assert [] + [c] == [c];
    assert c < |arch.cells| by { RoomyFree(arch, c, |net.ins[g]|); }
  }

  lemma RoomyStays(start: Net, end: Net, arch: Arch, advice: Advice, c: nat, g: nat)
    requires Shaped(start) && Shaped(end) && Generous(start, arch, advice, c) && KeepsPins(start, end) && end.IsGate(g)
    ensures Roomy(arch, c, |end.ins[g]|)
  {
    hide Roomy;
  }

  /** A cell that refuses everything has refused each gate alone. */
  lemma RefusedAlone(net: Net, arch: Arch, s: Ble, c: nat, archType: nat, advice: Advice, opts: Options, g: nat)
    requires CellRefuses(net, arch, s, c, archType, advice, opts) && archType >= 1
    requires net.IsGate(g) && g < |net.mapped| && !net.mapped[g]
    ensures Hopeless(net, arch, s, c, advice, opts, [g])
  {
    hide NetOk, Hopeless, IsOffered;
    assert Turned(net, arch, s, c, advice, opts, g, 1);
    var cand :| cand != [] && IsOffered(net, opts.mode, cand) && |cand| == 1 && cand[0] == g
      && Hopeless(net, arch, s, c, advice, opts, cand);
    assert cand == [g];
  }

  /** So when nothing fits any more, every gate has been packed. */
  lemma NoGateLeft(start: Net, end: Net, arch: Arch, advice: Advice, opts: Options, c: nat)
    requires Shaped(start) && Generous(start, arch, advice, c) && KeepsPins(start, end)
    requires Prepared(end) && BufsFeedLatches(end) && RefusesAll(end, arch, advice, opts)
    ensures forall g: nat :: end.IsGate(g) && g < |end.mapped| ==> end.mapped[g]
  {
    hide Hopeless, BufsFeedLatches, ListsOk, Acyclic, Agree, ArityOk, InitBle, Roomy, CellRefuses, KeepsPins;
    forall g: nat | end.IsGate(g) && g < |end.mapped| ensures end.mapped[g] {
      RoomyStays(start, end, arch, advice, c, g);
      NotHopeless(end, arch, advice, opts, c, g);
      RoomyFree(arch, c, 1);
      if !end.mapped[g] {
        RefusedAlone(end, arch, InitBle(arch), c, 1 + advice.maxSat(InitBle(arch), c), advice, opts, g);
      }
    }
  }

  /** And with at most one latch on a gate, every latch. */
  lemma NothingLeft(start: Net, end: Net, arch: Arch, advice: Advice, opts: Options, c: nat)
    requires Shaped(start) && Generous(start, arch, advice, c) && KeepsPins(start, end)
    requires NetSide(end, true) && RefusesAll(end, arch, advice, opts)
    ensures EverythingMapped(end)
  {
    hide BufsFeedLatches, ListsOk, Acyclic, Agree, ArityOk, Generous, KeepsPins, RefusesAll, Sole;
    NoGateLeft(start, end, arch, advice, opts, c);
    forall l: nat | end.IsLatch(l) ensures end.mapped[l] {
      assert |end.ins[l]| == 1 && end.IsGate(end.ins[l][0]);
    }
  }
}
