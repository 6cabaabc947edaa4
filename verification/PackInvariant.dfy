/** The invariant of a whole packing run and its preservation by every commit. */
module PackInvariant {
  import opened Seqs
  import opened LogicNetwork
  import opened BufferEdits
  import opened NetworkPasses
  import opened BleState
  import opened SatSpec
  import opened BleLegality
  import opened BleOutputs
  import opened CombCounts
  import opened BleInputs
  import opened BleLegal
  import opened PackRun

  // ----- a record stays legal when the network changes around it

  /** For this record the change from a to b is harmless: the nodes it holds keep their pins, the
      latches it emits keep their driver, and a held node whose fan-out changed has an output. */
  ghost predicate Harmless(a: Net, b: Net, s: Ble)
    requires Shaped(a) && Shaped(b)
  {
    && a.Size() <= b.Size()
    && (forall n: nat :: n < a.Size() ==> b.kind[n] == a.kind[n])
    && (forall n: nat :: n < a.Size() && InCells(s, n) ==> b.ins[n] == a.ins[n])
    && (forall n: nat :: n < a.Size() && OnOutput(s, n) && a.IsLatch(n) ==> b.ins[n] == a.ins[n])
    && (forall n: nat :: n < a.Size() && InCells(s, n) ==> b.outs[n] == a.outs[n] || OnOutput(s, n))
  }

  lemma OutSideSame(a: Net, b: Net, arch: Arch, s: Ble)
    requires Shaped(a) && Shaped(b) && Harmless(a, b, s) && OutSide(a, arch, s)
    ensures OutSide(b, arch, s)
  {
    hide Owned, InCells;
    forall o | 0 <= o < |s.outs| ensures OutOk(b, arch, s, o) {
      assert OutOk(a, arch, s, o);
      if s.outs[o].used {
        OnOutputIs(s, s.outs[o].node.value);
      }
    }
  }

  lemma DeliversSame(a: Net, b: Net, s: Ble, r: PortRef, targ: nat)
    requires Shaped(a) && Shaped(b) && Harmless(a, b, s) && InputsOk(a, s) && Delivers(a, s, r, targ)
    ensures Delivers(b, s, r, targ)
  {
    hide InCells, OnOutput;
    if r.BleIn? {
      assert InputOk(a, s, r.input);
    }
  }

  lemma CellRoutedSame(a: Net, b: Net, arch: Arch, s: Ble, c: nat)
    requires Shaped(a) && Shaped(b) && Fits(arch, s) && c < |arch.cells| && CellRouted(a, arch, s, c)
    requires Harmless(a, b, s) && InputsOk(a, s)
    ensures CellRouted(b, arch, s, c)
  {
    hide InCells, OnOutput, InputsOk, Delivers;
    if s.cells[c].node.Some? {
      var node := s.cells[c].node.value;
      InCellsIs(s, node);
      forall j | 0 <= j < |s.ports[c]| ensures PortOk(b, arch, s, c, j, node) {
        assert PortOk(a, arch, s, c, j, node);
        var p := s.ports[c][j];
        if p.used {
          DeliversSame(a, b, s, arch.cells[c][j][p.mux], a.ins[node][p.pin]);
        }
      }
    }
  }

  lemma InputsSame(a: Net, b: Net, s: Ble)
    requires Shaped(a) && Shaped(b) && Harmless(a, b, s) && InputsOk(a, s)
    ensures InputsOk(b, s)
  {
    hide InCells, OnOutput;
    forall i | 0 <= i < |s.ins| ensures InputOk(b, s, i) {
      assert InputOk(a, s, i);
    }
  }

  lemma KeptSame(a: Net, b: Net, s: Ble, x: nat)
    requires Shaped(a) && Shaped(b) && Harmless(a, b, s) && x < a.Size() && InCells(s, x) && NetKept(a, s, x)
    ensures NetKept(b, s, x)
  {
    hide InCells, OnOutput;
    if !OnOutput(s, x) {
      forall f | f in b.outs[x] && !b.IsLatch(f) ensures InCells(s, f) {
        assert f < a.Size();
      }
    }
  }

  lemma HarmlessGrows(a: Net, b: Net, s: Ble)
    requires Shaped(a) && Shaped(b) && Harmless(a, b, s)
    ensures a.Size() <= b.Size()
  {
  }

  lemma LegalSame(a: Net, b: Net, arch: Arch, s: Ble)
    requires Shaped(a) && Shaped(b) && Harmless(a, b, s) && Legal(a, arch, s)
    ensures Legal(b, arch, s)
  {
    hide InCells, OnOutput, OutSide, InputsOk, CellRouted, NetKept, Harmless;
    HarmlessGrows(a, b, s);
    assert Fits(arch, s) by { OutSideFits(a, arch, s); }
    assert CellsOk(a, s) by { OutSideCells(a, arch, s); }
    OutSideSame(a, b, arch, s);
    InputsSame(a, b, s);
    forall c | 0 <= c < |arch.cells| ensures CellRouted(b, arch, s, c) {
      CellRoutedSame(a, b, arch, s, c);
    }
    forall c | 0 <= c < |arch.cells| && s.cells[c].node.Some? ensures NetKept(b, s, s.cells[c].node.value) {
      InCellsIs(s, s.cells[c].node.value);
      KeptSame(a, b, s, s.cells[c].node.value);
    }
  }

  // ----- the invariant

  /** Each placed node is flagged with its BLE and cell, or waits to be (pend, in BLE pb). */
  ghost predicate PlacedFlagged(net: Net, bles: seq<Ble>, pend: set<nat>, pb: nat)
    requires Shaped(net)
  {
    forall b: nat, c: nat :: b < |bles| && c < |bles[b].cells| && bles[b].cells[c].node.Some? ==>
      PlacedFlag(net, bles[b].cells[c].node.value, b, c, pend, pb)
  }

  ghost predicate PlacedFlag(net: Net, n: nat, b: nat, c: nat, pend: set<nat>, pb: nat)
    requires Shaped(net)
  {
    n < net.Size() && ((n in pend && b == pb) || (net.mapped[n] && net.bleOf[n] == b && net.cellOf[n] == c))
  }

  /** Each flagged gate sits in the cell its flags name. */
  ghost predicate FlaggedPlaced(net: Net, bles: seq<Ble>)
    requires Shaped(net)
  {
    forall n: nat :: net.IsGate(n) && net.mapped[n] ==> SitsAt(net, bles, n)
  }

  ghost predicate SitsAt(net: Net, bles: seq<Ble>, n: nat)
    requires Shaped(net) && n < net.Size()
  {
    0 <= net.bleOf[n] < |bles| && 0 <= net.cellOf[n] < |bles[net.bleOf[n]].cells|
    && bles[net.bleOf[n]].cells[net.cellOf[n]].node == Some(n)
  }

  /** A latch on an output is flagged with that BLE, or its driver waits to be and it is the
      driver's first unmapped latch. */
  ghost predicate LatchFlagged(net: Net, bles: seq<Ble>, pend: set<nat>, pb: nat)
    requires Shaped(net)
  {
    forall b: nat, l: nat :: b < |bles| && net.IsLatch(l) && OnOutput(bles[b], l) ==> LatchFlag(net, b, l, pend, pb)
  }

  ghost predicate LatchFlag(net: Net, b: nat, l: nat, pend: set<nat>, pb: nat)
    requires Shaped(net) && l < net.Size()
  {
    (net.mapped[l] && net.bleOf[l] == b)
    || (b == pb && !net.mapped[l] && |net.ins[l]| == 1 && net.ins[l][0] in pend
      && FirstLatch(net, net.outs[net.ins[l][0]]) == Some(l))
  }

  /** A flagged latch leaves its BLE on an output. */
  ghost predicate FlaggedLatch(net: Net, bles: seq<Ble>)
    requires Shaped(net)
  {
    forall l: nat {:trigger net.mapped[l]} :: net.IsLatch(l) && net.mapped[l] ==>
      0 <= net.bleOf[l] < |bles| && OnOutput(bles[net.bleOf[l]], l)
  }

  /** Waiting members are unmapped gates whose latches have the outputs they need. */
  ghost predicate Waiting(net: Net, bles: seq<Ble>, pend: set<nat>, pb: nat)
    requires Shaped(net)
  {
    forall x :: x in pend ==> net.IsGate(x) && !net.mapped[x] && pb < |bles| && LatchServed(net, bles[pb], x)
  }

  ghost predicate LatchesDriven(net: Net)
    requires Shaped(net)
  {
    forall l: nat {:trigger net.ins[l]} :: l < net.Size() && net.kind[l] == Latch ==>
      |net.ins[l]| == 1 && net.IsGate(net.ins[l][0])
  }

  /** A gate that drives a latch drives no second latch and no buffer. */
  ghost predicate Sole(net: Net)
    requires Shaped(net)
  {
    forall d: nat, i, j | d < net.Size() && 0 <= i < |net.outs[d]| && 0 <= j < |net.outs[d]| && i != j
      && net.kind[d] == Gate
      :: net.IsLatch(net.outs[d][i]) ==> !net.IsLatch(net.outs[d][j]) && net.kind[net.outs[d][j]] != Buf
  }

  /** A latch is mapped as soon as its driver is. */
  ghost predicate Following(net: Net)
    requires Shaped(net)
  {
    forall l: nat {:trigger net.ins[l]} ::
      l < net.Size() && net.kind[l] == Latch && |net.ins[l]| == 1 && net.mapped[net.ins[l][0]] ==> net.mapped[l]
  }

  ghost predicate NetSide(net: Net, sole: bool) {
    Prepared(net) && BufsFeedLatches(net) && LatchesDriven(net) && (sole ==> Sole(net) && Following(net))
  }

  ghost predicate AllLegal(net: Net, arch: Arch, bles: seq<Ble>)
    requires Shaped(net)
  {
    forall b: nat :: b < |bles| ==> Legal(net, arch, bles[b])
  }

  ghost predicate PackInv(net: Net, arch: Arch, bles: seq<Ble>, pend: set<nat>, pb: nat, sole: bool) {
    && NetSide(net, sole)
    && AllLegal(net, arch, bles)
    && PlacedFlagged(net, bles, pend, pb) && FlaggedPlaced(net, bles)
    && LatchFlagged(net, bles, pend, pb) && FlaggedLatch(net, bles)
    && Waiting(net, bles, pend, pb)
  }

  // ----- what one commit changes

  /** Served is the latch that got its flags, moved the latch that got a buffer; not both. */
  ghost predicate CommitEffect(net: Net, r: Net, x: nat, pb: nat, cell: nat, served: Option<nat>, moved: Option<nat>)
    requires Shaped(net) && Shaped(r) && x < net.Size()
  {
    && net.Size() <= r.Size()
    && (forall n: nat :: n < net.Size() ==> r.kind[n] == net.kind[n])
    && (forall n: nat :: net.Size() <= n < r.Size() ==> r.kind[n] == Buf && !r.mapped[n])
    && (forall n: nat :: n < net.Size() ==>
          && (r.mapped[n] <==> net.mapped[n] || n == x || served == Some(n))
          && r.bleOf[n] == (if n == x || served == Some(n) then pb else net.bleOf[n])
          && r.cellOf[n] == (if n == x then cell else net.cellOf[n]))
    && (forall n: nat :: n < net.Size() && n != x ==> r.outs[n] == net.outs[n])
    && (forall n: nat :: n < net.Size() && moved != Some(n) ==> r.ins[n] == net.ins[n])
    && (moved.None? ==> r.outs[x] == net.outs[x] && r.Size() == net.Size())
    && (moved.Some? ==> served.None? && MovedOk(net, x, moved.value) && Spliced(net, r, x, moved.value))
  }

  /** The new buffer stands between x and the latch. */
  ghost predicate Spliced(net: Net, r: Net, x: nat, latch: nat)
    requires Shaped(net) && Shaped(r) && x < net.Size() && latch < net.Size()
  {
    var b: nat := net.Size();
    && r.Size() == b + 1 && r.outs[b] == [latch] && r.ins[b] == [x] && r.ins[latch] == [b]
    && |r.outs[x]| == |net.outs[x]|
    && exists pos :: 0 <= pos < |net.outs[x]| && net.outs[x][pos] == latch && r.outs[x] == net.outs[x][pos := b]
  }

  ghost predicate MovedOk(net: Net, x: nat, latch: nat)
    requires Shaped(net) && x < net.Size()
  {
    latch < net.Size() && net.ins[latch] == [x] && net.IsLatch(latch) && !net.mapped[latch]
    && latch in net.outs[x] && net.kind[x] == Gate
  }

  /** The latches of x are the ones FirstServedLatch looks at. */
  lemma {:induction false} ServedNone(net: Net, s: Ble, fan: seq<nat>)
    requires FirstServedLatch(net, s, fan).None?
    ensures forall i :: 0 <= i < |fan| && net.IsLatch(fan[i]) && fan[i] < |net.mapped| && !net.mapped[fan[i]] ==>
      !OnOutput(s, fan[i])
  {
    hide OnOutput;
    if fan != [] {
      ServedNone(net, s, fan[1..]);
      assert forall i :: 1 <= i < |fan| ==> fan[i] == fan[1..][i - 1];
    }
  }

  lemma {:induction false} LastNone(net: Net, fan: seq<nat>)
    requires LastLatch(net, fan).None?
    ensures forall i :: 0 <= i < |fan| && net.IsLatch(fan[i]) && fan[i] < |net.mapped| ==> net.mapped[fan[i]]
  {
    if fan != [] {
      LastNone(net, fan[..|fan| - 1]);
      assert forall i :: 0 <= i < |fan| - 1 ==> fan[i] == fan[..|fan| - 1][i];
    }
  }

  lemma {:induction false} FirstLatchSame(a: Net, b: Net, fan: seq<nat>)
    requires Shaped(a) && Shaped(b)
    requires forall i :: 0 <= i < |fan| ==> fan[i] < a.Size() && fan[i] < b.Size() && a.kind[fan[i]] == b.kind[fan[i]]
    requires forall i :: 0 <= i < |fan| && a.IsLatch(fan[i]) ==> a.mapped[fan[i]] == b.mapped[fan[i]]
    ensures FirstLatch(a, fan) == FirstLatch(b, fan)
  {
    if fan != [] {
      FirstLatchSame(a, b, fan[1..]);
    }
  }

  lemma FirstLatchSome(net: Net, fan: seq<nat>, l: nat)
    requires l in fan && net.IsLatch(l) && l < |net.mapped| && !net.mapped[l]
    ensures FirstLatch(net, fan).Some?
  {
    if FirstLatch(net, fan).None? {
      FirstLatchNone(net, fan);
    }
  }

  /** The three ways a commit can go have the effect described above. */
  lemma CommitHasEffect(net: Net, s: Ble, pb: nat, cell: nat, x: nat) returns (served: Option<nat>, moved: Option<nat>)
    requires NetOk(net) && net.IsGate(x) && !net.mapped[x]
    ensures Shaped(CommitMember(net, s, pb, cell, x))
    ensures CommitEffect(net, CommitMember(net, s, pb, cell, x), x, pb, cell, served, moved)
    ensures served == FirstServedLatch(net, s, net.outs[x])
    ensures moved.None? && served.None? ==>
      LastLatch(net, net.outs[x]).None? || net.kind[x] == Buf || HasBuf(net, net.outs[x])
  {
    hide OnOutput, Agree, ArityOk, BufferFlagged, HasBuf;
    var p := Placed(net, pb, cell, x);
    PlacedIsOk(net, pb, cell, x);
    ServedSame(net, p, s, x);
    var fan := net.outs[x];
    served := FirstServedLatch(p, s, fan);
    var last := LastLatch(p, fan);
    assert HasBuf(p, fan) == HasBuf(net, fan) by { HasBufSame(net, p, fan); }
    if served.Some? {
      FanoutInRange(p, x, served.value);
      moved := None;
    } else if last.Some? && p.kind[x] != Buf && !HasBuf(p, fan) {
      moved := last;
      BufferEffect(net, p, pb, cell, x, last.value);
    } else {
      moved := None;
    }
  }

  lemma HasBufSame(a: Net, b: Net, fan: seq<nat>)
    requires a.kind == b.kind
    ensures HasBuf(a, fan) == HasBuf(b, fan)
  {
  }

  /** Marking a gate does not change which latches look unmapped. */
  lemma ServedSame(net: Net, p: Net, s: Ble, x: nat)
    requires Shaped(net) && Shaped(p) && x < net.Size() && !net.IsLatch(x)
    requires p.kind == net.kind && p.mapped == net.mapped[x := true]
    ensures FirstServedLatch(p, s, net.outs[x]) == FirstServedLatch(net, s, net.outs[x])
    ensures LastLatch(p, net.outs[x]) == LastLatch(net, net.outs[x])
  {
    ServedSameOn(net, p, s, net.outs[x]);
    LastSameOn(net, p, net.outs[x]);
  }

  lemma {:induction false} ServedSameOn(a: Net, b: Net, s: Ble, fan: seq<nat>)
    requires a.kind == b.kind && |a.mapped| == |b.mapped| && forall l: nat :: l < |a.mapped| && a.IsLatch(l) ==>
      a.mapped[l] == b.mapped[l]
    ensures FirstServedLatch(a, s, fan) == FirstServedLatch(b, s, fan)
  {
    hide OnOutput;
    if fan != [] {
      ServedSameOn(a, b, s, fan[1..]);
    }
  }

  lemma {:induction false} LastSameOn(a: Net, b: Net, fan: seq<nat>)
    requires a.kind == b.kind && |a.mapped| == |b.mapped| && forall l: nat :: l < |a.mapped| && a.IsLatch(l) ==>
      a.mapped[l] == b.mapped[l]
    ensures LastLatch(a, fan) == LastLatch(b, fan)
  {
    if fan != [] {
      LastSameOn(a, b, fan[..|fan| - 1]);
    }
  }

  lemma BufferEffect(net: Net, p: Net, pb: nat, cell: nat, x: nat, latch: nat)
    requires NetOk(net) && NetOk(p) && net.IsGate(x) && p == Placed(net, pb, cell, x)
    requires latch in p.outs[x] && p.IsLatch(latch) && latch < p.Size() && !p.mapped[latch] && p.kind[x] != Buf
    ensures Shaped(BufferFlagged(p, latch))
    ensures CommitEffect(net, BufferFlagged(p, latch), x, pb, cell, None, Some(latch))
  {
    hide Agree;
    BufferLatchIs(p, latch);
    AddBufKeepsAgreement(p, latch, 0);
    EdgeBothWays(p, x, latch);
    assert p.ins[latch] == [x];
    assert p.outs[x][IndexOf(p.outs[x], latch)] == latch;
  }

  // ----- the commit keeps each part of the invariant

  /** What every lemma below starts from. */
  ghost predicate Committing(net: Net, arch: Arch, bles: seq<Ble>, pend: set<nat>, pb: nat, sole: bool,
                             r: Net, x: nat, cell: nat, served: Option<nat>, moved: Option<nat>) {
    && PackInv(net, arch, bles, pend, pb, sole) && x in pend && Shaped(r) && x < net.Size()
    && pb < |bles| && cell < |bles[pb].cells| && bles[pb].cells[cell].node == Some(x)
    && CommitEffect(net, r, x, pb, cell, served, moved)
    && served == FirstServedLatch(net, bles[pb], net.outs[x])
  }

  lemma CommittingFacts(net: Net, arch: Arch, bles: seq<Ble>, pend: set<nat>, pb: nat, sole: bool,
                        r: Net, x: nat, cell: nat, served: Option<nat>, moved: Option<nat>)
    requires Committing(net, arch, bles, pend, pb, sole, r, x, cell, served, moved)
    ensures Shaped(net) && Shaped(r) && x < net.Size() && net.IsGate(x) && !net.mapped[x] && pb < |bles|
    ensures CommitEffect(net, r, x, pb, cell, served, moved) && x in pend && cell < |bles[pb].cells|
      && bles[pb].cells[cell].node == Some(x)
    ensures served == FirstServedLatch(net, bles[pb], net.outs[x])
    ensures served.Some? ==> served.value < net.Size() && net.IsLatch(served.value) && !net.mapped[served.value]
                             && served.value in net.outs[x] && net.ins[served.value] == [x]
                               && OnOutput(bles[pb], served.value)
    ensures NetOk(net) && AllLegal(net, arch, bles) && PlacedFlagged(net, bles, pend, pb) && FlaggedPlaced(net, bles)
    ensures LatchFlagged(net, bles, pend, pb) && FlaggedLatch(net, bles) && Waiting(net, bles, pend, pb)
      && NetSide(net, sole)
  {
    hide AllLegal, PlacedFlagged, FlaggedPlaced, LatchFlagged, FlaggedLatch, OnOutput, ListsOk, Sole, Following,
      BufsFeedLatches, CommitEffect, LatchServed, FirstServedLatch;
    if served.Some? {
      FanoutInRange(net, x, served.value);
      EdgeBothWays(net, x, served.value);
      assert net.ins[served.value] == [net.ins[served.value][0]];
    }
  }

  /** A latch that gets a buffer leaves no BLE. */
  lemma MovedNotOut(net: Net, arch: Arch, bles: seq<Ble>, pend: set<nat>, pb: nat, sole: bool,
                    r: Net, x: nat, cell: nat, served: Option<nat>, moved: Option<nat>, b: nat)
    requires Committing(net, arch, bles, pend, pb, sole, r, x, cell, served, moved) && moved.Some? && b < |bles|
    ensures !OnOutput(bles[b], moved.value)
  {
    hide OnOutput, PackInv, CommitEffect, FirstLatch;
    CommittingFacts(net, arch, bles, pend, pb, sole, r, x, cell, served, moved);
    var l := moved.value;
    assert MovedOk(net, x, l) && served.None? by {
      assert CommitEffect(net, r, x, pb, cell, served, moved);
      EffectMoved(net, r, x, pb, cell, served, moved);
    }
    ServedNone(net, bles[pb], net.outs[x]);
  }

  lemma EffectMoved(net: Net, r: Net, x: nat, pb: nat, cell: nat, served: Option<nat>, moved: Option<nat>)
    requires Shaped(net) && Shaped(r) && x < net.Size() && CommitEffect(net, r, x, pb, cell, served, moved)
      && moved.Some?
    ensures served.None? && MovedOk(net, x, moved.value) && Spliced(net, r, x, moved.value)
  {
  }

  lemma CommitHarmless(net: Net, arch: Arch, bles: seq<Ble>, pend: set<nat>, pb: nat, sole: bool,
                       r: Net, x: nat, cell: nat, served: Option<nat>, moved: Option<nat>, b: nat)
    requires Committing(net, arch, bles, pend, pb, sole, r, x, cell, served, moved) && b < |bles|
    ensures Shaped(net) && Shaped(r) && Harmless(net, r, bles[b])
  {
    hide OnOutput, PackInv, FirstLatch, Committing, InCells, CommitEffect, Shaped, LatchServed, PlacedFlagged,
      FlaggedPlaced,
      LatchFlagged, FlaggedLatch, Waiting, NetSide, Harmless, AllLegal;
    CommittingFacts(net, arch, bles, pend, pb, sole, r, x, cell, served, moved);
    if moved.Some? {
      EffectMoved(net, r, x, pb, cell, served, moved);
      MovedNotOut(net, arch, bles, pend, pb, sole, r, x, cell, served, moved, b);
      MovedNotIn(net, arch, bles, moved.value, b);
      if InCells(bles[b], x) {
        HeldHere(net, bles, pend, pb, b, x);
        WaitingOnOutput(net, bles, pend, pb, x, moved.value);
      }
    }
    EffectHarmless(net, r, x, pb, cell, served, moved, bles[b]);
  }

  lemma MovedNotIn(net: Net, arch: Arch, bles: seq<Ble>, latch: nat, b: nat)
    requires Shaped(net) && AllLegal(net, arch, bles) && net.IsLatch(latch) && b < |bles|
    ensures !InCells(bles[b], latch)
  {
    hide Legal, InCells;
    LatchNotInCells(net, arch, bles[b], latch);
  }

  /** A waiting node whose latch nobody serves owns an output itself. */
  lemma WaitingOnOutput(net: Net, bles: seq<Ble>, pend: set<nat>, pb: nat, x: nat, latch: nat)
    requires Shaped(net) && Waiting(net, bles, pend, pb) && x in pend && x < net.Size() && pb < |bles|
      && MovedOk(net, x, latch)
    requires FirstServedLatch(net, bles[pb], net.outs[x]).None?
    ensures OnOutput(bles[pb], x)
  {
    hide OnOutput, FirstLatch, FirstServedLatch;
    assert LatchServed(net, bles[pb], x);
    FirstLatchSome(net, net.outs[x], latch);
    FirstNotServed(net, bles[pb], x);
  }

  lemma EffectHarmless(net: Net, r: Net, x: nat, pb: nat, cell: nat, served: Option<nat>, moved: Option<nat>, s: Ble)
    requires Shaped(net) && Shaped(r) && x < net.Size() && CommitEffect(net, r, x, pb, cell, served, moved)
    requires moved.Some? ==> !OnOutput(s, moved.value) && !InCells(s, moved.value) && (InCells(s, x) ==> OnOutput(s, x))
    ensures Harmless(net, r, s)
  {
    hide OnOutput, InCells, Spliced, MovedOk;
  }

  lemma LatchNotInCells(net: Net, arch: Arch, s: Ble, l: nat)
    requires Shaped(net) && Legal(net, arch, s) && net.IsLatch(l)
    ensures !InCells(s, l)
  {
    hide InputsOk, CellRouted, NetKept, OutsOk, AllOwned;
    InCellsIs(s, l);
  }

  /** A waiting node is held by BLE pb only. */
  lemma HeldHere(net: Net, bles: seq<Ble>, pend: set<nat>, pb: nat, b: nat, x: nat)
    requires Shaped(net) && PlacedFlagged(net, bles, pend, pb) && b < |bles| && x < net.Size() && !net.mapped[x]
      && InCells(bles[b], x)
    ensures b == pb
  {
    InCellsIs(bles[b], x);
    var c: nat :| c < |bles[b].cells| && bles[b].cells[c].node == Some(x);
    assert PlacedFlag(net, x, b, c, pend, pb);
  }

  /** With no served latch the first unmapped one is not on an output. */
  lemma FirstNotServed(net: Net, s: Ble, x: nat)
    requires Shaped(net) && x < net.Size() && FirstServedLatch(net, s, net.outs[x]).None?
      && FirstLatch(net, net.outs[x]).Some?
    ensures !OnOutput(s, FirstLatch(net, net.outs[x]).value)
  {
    hide OnOutput;
    ServedNone(net, s, net.outs[x]);
    FanoutInRange(net, x, FirstLatch(net, net.outs[x]).value);
  }

  lemma CommitLegal(net: Net, arch: Arch, bles: seq<Ble>, pend: set<nat>, pb: nat, sole: bool,
                    r: Net, x: nat, cell: nat, served: Option<nat>, moved: Option<nat>)
    requires Committing(net, arch, bles, pend, pb, sole, r, x, cell, served, moved)
    ensures Shaped(r) && AllLegal(r, arch, bles)
  {
    hide Committing, Legal, Harmless;
    CommittingFacts(net, arch, bles, pend, pb, sole, r, x, cell, served, moved);
    forall b: nat | b < |bles| ensures Legal(r, arch, bles[b]) {
      assert Legal(net, arch, bles[b]);
      CommitHarmless(net, arch, bles, pend, pb, sole, r, x, cell, served, moved, b);
      LegalSame(net, r, arch, bles[b]);
    }
  }

  lemma CommitPlaced(net: Net, arch: Arch, bles: seq<Ble>, pend: set<nat>, pb: nat, sole: bool,
                     r: Net, x: nat, cell: nat, served: Option<nat>, moved: Option<nat>)
    requires Committing(net, arch, bles, pend, pb, sole, r, x, cell, served, moved)
    ensures Shaped(r) && PlacedFlagged(r, bles, pend - {x}, pb) && FlaggedPlaced(r, bles)
  {
    hide PackInv, Legal, OnOutput, LatchFlagged, FlaggedLatch, Waiting, FirstServedLatch, NetSide, Agree;
    CommittingFacts(net, arch, bles, pend, pb, sole, r, x, cell, served, moved);
    forall b: nat, c: nat | b < |bles| && c < |bles[b].cells| && bles[b].cells[c].node.Some?
      ensures PlacedFlag(r, bles[b].cells[c].node.value, b, c, pend - {x}, pb)
    {
      var n := bles[b].cells[c].node.value;
      assert PlacedFlag(net, n, b, c, pend, pb);
      CellsHoldGates(net, arch, bles[b], c) by { assert Legal(net, arch, bles[b]); }
      if n == x {
        OneCell(net, arch, bles[pb], c, cell) by { assert Legal(net, arch, bles[pb]); }
      }
    }
    forall n: nat | r.IsGate(n) && r.mapped[n] ensures SitsAt(r, bles, n) {
      if n != x {
        assert n < net.Size();
        assert SitsAt(net, bles, n);
      }
    }
  }

  lemma CellsHoldGates(net: Net, arch: Arch, s: Ble, c: nat)
    requires Shaped(net) && Legal(net, arch, s) && c < |s.cells| && s.cells[c].node.Some?
    ensures net.IsGate(s.cells[c].node.value)
  {
    hide InputsOk, CellRouted, NetKept, OutsOk, AllOwned;
  }

  lemma OneCell(net: Net, arch: Arch, s: Ble, c: nat, d: nat)
    requires Shaped(net) && Legal(net, arch, s) && c < |s.cells| && d < |s.cells|
    requires s.cells[c].node.Some? && s.cells[c].node == s.cells[d].node
    ensures c == d
  {
    hide InputsOk, CellRouted, NetKept, OutsOk, AllOwned;
  }

  /** Other nodes see the same fan-out and the same latches. */
  lemma OthersLatch(net: Net, arch: Arch, bles: seq<Ble>, pend: set<nat>, pb: nat, sole: bool,
                    r: Net, x: nat, cell: nat, served: Option<nat>, moved: Option<nat>, d: nat)
    requires Committing(net, arch, bles, pend, pb, sole, r, x, cell, served, moved)
    requires d < net.Size() && d != x
    ensures Shaped(r) && d < r.Size() && r.outs[d] == net.outs[d]
      && FirstLatch(r, r.outs[d]) == FirstLatch(net, net.outs[d])
  {
    hide PackInv, Legal, OnOutput, LatchFlagged, FlaggedLatch, Waiting, FirstServedLatch, NetSide, FirstLatch,
      PlacedFlagged, FlaggedPlaced, AllLegal;
    CommittingFacts(net, arch, bles, pend, pb, sole, r, x, cell, served, moved);
    forall i | 0 <= i < |net.outs[d]| && net.IsLatch(net.outs[d][i])
      ensures net.mapped[net.outs[d][i]] == r.mapped[net.outs[d][i]]
    {
      EdgeBothWays(net, d, net.outs[d][i]);
    }
    FirstLatchSame(net, r, net.outs[d]);
  }

  lemma CommitLatches(net: Net, arch: Arch, bles: seq<Ble>, pend: set<nat>, pb: nat, sole: bool,
                      r: Net, x: nat, cell: nat, served: Option<nat>, moved: Option<nat>)
    requires Committing(net, arch, bles, pend, pb, sole, r, x, cell, served, moved)
    ensures Shaped(r) && LatchFlagged(r, bles, pend - {x}, pb) && FlaggedLatch(r, bles)
  {
    hide PackInv, Legal, OnOutput, FirstServedLatch, NetSide, FirstLatch, PlacedFlagged, FlaggedPlaced, AllLegal,
      Committing, Agree, ArityOk;
    CommittingFacts(net, arch, bles, pend, pb, sole, r, x, cell, served, moved);
    forall b: nat, l: nat | b < |bles| && r.IsLatch(l) && OnOutput(bles[b], l)
      ensures LatchFlag(r, b, l, pend - {x}, pb)
    {
      assert l < net.Size();
      assert LatchFlag(net, b, l, pend, pb);
      if moved == Some(l) {
        MovedNotOut(net, arch, bles, pend, pb, sole, r, x, cell, served, moved, b);
      } else if !net.mapped[l] {
        var d := net.ins[l][0];
        if d != x {
          OthersLatch(net, arch, bles, pend, pb, sole, r, x, cell, served, moved, d);
        } else {
          ServedIsFirst(net, bles, pend, pb, x, l);
        }
      }
    }
    forall l: nat | r.IsLatch(l) && r.mapped[l] ensures 0 <= r.bleOf[l] < |bles| && OnOutput(bles[r.bleOf[l]], l) {
      assert l < net.Size();
      if net.mapped[l] {
        assert 0 <= net.bleOf[l] < |bles| && OnOutput(bles[net.bleOf[l]], l);
      }
    }
  }

  /** A waiting node's latch on an output is the one mark_lgknd_outputs_mapped finds. */
  lemma ServedIsFirst(net: Net, bles: seq<Ble>, pend: set<nat>, pb: nat, x: nat, l: nat)
    requires NetOk(net) && x < net.Size() && pb < |bles| && LatchFlagged(net, bles, pend, pb)
    requires net.IsLatch(l) && net.ins[l][0] == x && !net.mapped[l] && OnOutput(bles[pb], l)
    ensures FirstServedLatch(net, bles[pb], net.outs[x]) == Some(l)
  {
    hide OnOutput, FirstLatch;
    EdgeBothWays(net, x, l);
    var served := FirstServedLatch(net, bles[pb], net.outs[x]);
    assert LatchFlag(net, pb, l, pend, pb);
    if served.None? {
      ServedNone(net, bles[pb], net.outs[x]);
    } else {
      FanoutInRange(net, x, served.value);
      EdgeBothWays(net, x, served.value);
      assert LatchFlag(net, pb, served.value, pend, pb);
    }
  }

  lemma CommitWaiting(net: Net, arch: Arch, bles: seq<Ble>, pend: set<nat>, pb: nat, sole: bool,
                      r: Net, x: nat, cell: nat, served: Option<nat>, moved: Option<nat>)
    requires Committing(net, arch, bles, pend, pb, sole, r, x, cell, served, moved)
    ensures Shaped(r) && Waiting(r, bles, pend - {x}, pb)
  {
    hide PackInv, Legal, OnOutput, FirstServedLatch, NetSide, FirstLatch, PlacedFlagged, FlaggedPlaced, AllLegal,
      Committing, LatchFlagged, FlaggedLatch, Agree, ArityOk;
    CommittingFacts(net, arch, bles, pend, pb, sole, r, x, cell, served, moved);
    forall y | y in pend - {x} ensures r.IsGate(y) && !r.mapped[y] && pb < |bles| && LatchServed(r, bles[pb], y) {
      assert net.IsGate(y) && LatchServed(net, bles[pb], y);
      OthersLatch(net, arch, bles, pend, pb, sole, r, x, cell, served, moved, y);
    }
  }

  // ----- the network's own part

  lemma PlacedPrepared(net: Netlist, r: Net)
    requires SameGraph(net, r) && Shaped(r) && r.list == net.list && r.gates == net.gates && r.latches == net.latches
    ensures Prepared(r)
  {
    forall u: nat, v: nat | u < r.Size() && v < r.Size() ensures Count(r.outs[u], v) == Count(r.ins[v], u) {
      assert Count(net.outs[u], v) == Count(net.ins[v], u);
    }
    var rk :| Ranked(net, rk);
    assert Ranked(r, rk);
    forall n: nat
      ensures n in r.list <==> r.IsGate(n)
      ensures n in r.gates <==> r.IsGate(n)
      ensures n in r.latches <==> r.IsLatch(n)
    {
      assert n in net.list <==> net.IsGate(n);
      assert n in net.gates <==> net.IsGate(n);
      assert n in net.latches <==> net.IsLatch(n);
    }
  }

  lemma CommitPrepared(net: Netlist, s: Ble, pb: nat, cell: nat, x: nat)
    requires net.IsGate(x)
    ensures Prepared(CommitMember(net, s, pb, cell, x))
  {
    hide NetOk, Acyclic, ListsOk, OnOutput;
    assert Shaped(net) by { PreparedShape(net); }
    var p := Placed(net, pb, cell, x);
    PlacedIsOk(net, pb, cell, x);
    PlacedPrepared(net, p) by { PreparedShape(p); }
    var fan := p.outs[x];
    var served := FirstServedLatch(p, s, fan);
    var last := LastLatch(p, fan);
    if served.Some? {
      FanoutInRange(p, x, served.value);
      PlacedPrepared(net, MarkLatch(p, pb, served.value));
    } else if last.Some? && p.kind[x] != Buf && !HasBuf(p, fan) {
      FanoutInRange(p, x, last.value);
      FlaggedPrepared(p, last.value);
    }
  }

  lemma PreparedShape(net: Net)
    requires NetOk(net)
    ensures Shaped(net)
  {
  }

  lemma FlaggedPrepared(p: Netlist, latch: nat)
    requires p.IsLatch(latch)
    ensures Prepared(BufferFlagged(p, latch))
  {
    hide NetOk, Acyclic, ListsOk;
    BufferLatchIsSound(p, latch);
    BufferLatchIs(p, latch);
    BufferFlaggedShape(p, latch);
    PlacedPrepared(BufferLatch(p, latch), BufferFlagged(p, latch));
  }

  lemma BufferFlaggedShape(p: Netlist, latch: nat)
    requires p.IsLatch(latch) && Prepared(BufferLatch(p, latch))
    ensures Shaped(BufferFlagged(p, latch)) && SameGraph(BufferLatch(p, latch), BufferFlagged(p, latch))
  {
    BufferLatchIs(p, latch);
  }

  lemma CommitDriven(net: Net, arch: Arch, bles: seq<Ble>, pend: set<nat>, pb: nat, sole: bool,
                     r: Net, x: nat, cell: nat, served: Option<nat>, moved: Option<nat>)
    requires Committing(net, arch, bles, pend, pb, sole, r, x, cell, served, moved)
    ensures Shaped(r) && BufsFeedLatches(r) && LatchesDriven(r)
  {
    hide PackInv, Legal, OnOutput, FirstServedLatch, FirstLatch, PlacedFlagged, FlaggedPlaced, AllLegal, Committing,
      LatchFlagged, FlaggedLatch, Agree, ArityOk, Waiting, Sole, Following, Prepared;
    CommittingFacts(net, arch, bles, pend, pb, sole, r, x, cell, served, moved);
    forall b: nat | b < r.Size() && r.kind[b] == Buf ensures |r.outs[b]| == 1 && r.IsLatch(r.outs[b][0]) {
      if b < net.Size() {
        assert |net.outs[b]| == 1 && net.IsLatch(net.outs[b][0]);
      }
    }
    forall l: nat | l < r.Size() && r.kind[l] == Latch ensures |r.ins[l]| == 1 && r.IsGate(r.ins[l][0]) {
      assert l < net.Size();
      assert |net.ins[l]| == 1 && net.IsGate(net.ins[l][0]);
    }
  }

  lemma CommitSole(net: Net, arch: Arch, bles: seq<Ble>, pend: set<nat>, pb: nat,
                   r: Net, x: nat, cell: nat, served: Option<nat>, moved: Option<nat>)
    requires Committing(net, arch, bles, pend, pb, true, r, x, cell, served, moved)
    ensures Shaped(r) && Sole(r)
  {
    hide PackInv, Legal, OnOutput, FirstServedLatch, FirstLatch, PlacedFlagged, FlaggedPlaced, AllLegal, Committing,
      LatchFlagged, FlaggedLatch, Agree, ArityOk, Waiting, Following, Prepared, BufsFeedLatches, LatchesDriven;
    CommittingFacts(net, arch, bles, pend, pb, true, r, x, cell, served, moved);
    forall d: nat, i, j | d < r.Size() && 0 <= i < |r.outs[d]| && 0 <= j < |r.outs[d]| && i != j && r.kind[d] == Gate
      && r.IsLatch(r.outs[d][i])
      ensures !r.IsLatch(r.outs[d][j]) && r.kind[r.outs[d][j]] != Buf
    {
      assert d < net.Size();
      assert net.IsLatch(net.outs[d][i]);
    }
  }

  /** With at most one latch per gate, the latch of a mapped gate is mapped or behind a buffer. */
  lemma CommitFollowing(net: Net, arch: Arch, bles: seq<Ble>, pend: set<nat>, pb: nat,
                        r: Net, x: nat, cell: nat, served: Option<nat>, moved: Option<nat>)
    requires Committing(net, arch, bles, pend, pb, true, r, x, cell, served, moved)
    requires moved.None? && served.None? ==>
      LastLatch(net, net.outs[x]).None? || net.kind[x] == Buf || HasBuf(net, net.outs[x])
    ensures Shaped(r) && Following(r)
  {
    hide PackInv, Legal, OnOutput, FirstServedLatch, FirstLatch, PlacedFlagged, FlaggedPlaced, AllLegal, Committing,
      LatchFlagged, FlaggedLatch, Agree, ArityOk, Waiting, Prepared, BufsFeedLatches, Sole, HasBuf, LastLatch;
    CommittingFacts(net, arch, bles, pend, pb, true, r, x, cell, served, moved);
    forall l: nat | l < r.Size() && r.kind[l] == Latch && |r.ins[l]| == 1 && r.mapped[r.ins[l][0]] ensures r.mapped[l] {
      assert l < net.Size();
      if moved != Some(l) && net.ins[l][0] == x && !net.mapped[l] {
        OnlyLatch(net, arch, bles, pend, pb, r, x, cell, served, moved, l);
      }
    }
  }

  lemma OnlyLatch(net: Net, arch: Arch, bles: seq<Ble>, pend: set<nat>, pb: nat,
                  r: Net, x: nat, cell: nat, served: Option<nat>, moved: Option<nat>, l: nat)
    requires Committing(net, arch, bles, pend, pb, true, r, x, cell, served, moved)
    requires moved.None? && served.None? ==>
      LastLatch(net, net.outs[x]).None? || net.kind[x] == Buf || HasBuf(net, net.outs[x])
    requires l < net.Size() && Shaped(net) && net.IsLatch(l) && |net.ins[l]| == 1 && net.ins[l][0] == x
      && !net.mapped[l]
    ensures served == Some(l) || moved == Some(l)
  {
    hide PackInv, Legal, OnOutput, FirstServedLatch, FirstLatch, PlacedFlagged, FlaggedPlaced, AllLegal, Committing,
      LatchFlagged, FlaggedLatch, Agree, ArityOk, Following, LastLatch, Spliced;
    CommittingFacts(net, arch, bles, pend, pb, true, r, x, cell, served, moved);
    EdgeBothWays(net, x, l);
    var i :| 0 <= i < |net.outs[x]| && net.outs[x][i] == l;
    if served.Some? {
      SameEntry(net, x, i, served.value);
    } else if moved.Some? {
      EffectMoved(net, r, x, pb, cell, served, moved);
      SameEntry(net, x, i, moved.value);
    } else {
      if LastLatch(net, net.outs[x]).None? {
        LastNone(net, net.outs[x]);
      } else if net.kind[x] == Buf {
        FirstLatchSome(net, net.outs[x], l);
        assert LatchServed(net, bles[pb], x);
        FirstNotServed(net, bles[pb], x);
      }
    }
  }

  lemma SameEntry(net: Net, x: nat, i: nat, m: nat)
    requires Shaped(net) && Sole(net) && x < net.Size() && i < |net.outs[x]| && net.IsLatch(net.outs[x][i])
      && net.IsLatch(m) && m in net.outs[x]
    requires net.kind[x] == Gate || |net.outs[x]| == 1
    ensures m == net.outs[x][i]
  {
    var j :| 0 <= j < |net.outs[x]| && net.outs[x][j] == m;
  }

  /** Committing the member x of a pattern keeps the invariant, with x no longer waiting. */
  lemma CommitKeeps(net: Net, arch: Arch, bles: seq<Ble>, pend: set<nat>, pb: nat, sole: bool, x: nat, cell: nat)
    requires PackInv(net, arch, bles, pend, pb, sole) && x in pend
    requires pb < |bles| && cell < |bles[pb].cells| && bles[pb].cells[cell].node == Some(x)
    ensures NetOk(net) && net.IsGate(x) && !net.mapped[x]
    ensures PackInv(CommitMember(net, bles[pb], pb, cell, x), arch, bles, pend - {x}, pb, sole)
  {
    hide AllLegal, PlacedFlagged, FlaggedPlaced, LatchFlagged, FlaggedLatch, OnOutput, BufsFeedLatches, LatchesDriven,
      Sole, Following, CommitMember, CommitEffect, FirstServedLatch, LastLatch, HasBuf, ListsOk, Agree, ArityOk,
      Acyclic;
    var served, moved := CommitHasEffect(net, bles[pb], pb, cell, x);
    var r := CommitMember(net, bles[pb], pb, cell, x);
    assert Committing(net, arch, bles, pend, pb, sole, r, x, cell, served, moved);
    CommitPrepared(net, bles[pb], pb, cell, x);
    CommitLegal(net, arch, bles, pend, pb, sole, r, x, cell, served, moved);
    CommitPlaced(net, arch, bles, pend, pb, sole, r, x, cell, served, moved);
    CommitLatches(net, arch, bles, pend, pb, sole, r, x, cell, served, moved);
    CommitWaiting(net, arch, bles, pend, pb, sole, r, x, cell, served, moved);
    CommitDriven(net, arch, bles, pend, pb, sole, r, x, cell, served, moved);
    if sole {
      CommitSole(net, arch, bles, pend, pb, r, x, cell, served, moved);
      CommitFollowing(net, arch, bles, pend, pb, r, x, cell, served, moved);
    }
  }

  // ----- one successful run of the solver

  /** What pattern packing hands to run_sat_solver: different unmapped gates and different unused cells. */
  ghost predicate Pattern(net: Net, s: Ble, members: seq<nat>, idxes: seq<nat>)
    requires Shaped(net)
  {
    && members != [] && |idxes| == |members| && Distinct(members) && Distinct(idxes)
    && (forall i :: 0 <= i < |members| ==> net.IsGate(members[i]) && !net.mapped[members[i]])
    && (forall i :: 0 <= i < |idxes| ==> idxes[i] < |s.cells| && s.cells[idxes[i]].node.None?)
  }

  ghost function Elements(s: seq<nat>): set<nat> {
    set n | n in s
  }

  lemma UnmappedNotHeld(net: Net, bles: seq<Ble>, pb: nat, b: nat, n: nat)
    requires Shaped(net) && PlacedFlagged(net, bles, {}, pb) && b < |bles| && n < net.Size() && !net.mapped[n]
    ensures !InCells(bles[b], n)
  {
    InCellsIs(bles[b], n);
  }

  lemma PatternReady(net: Net, arch: Arch, bles: seq<Ble>, pb: nat, sole: bool, b: nat, members: seq<nat>,
      idxes: seq<nat>)
    requires PackInv(net, arch, bles, {}, pb, sole) && b < |bles| && Pattern(net, bles[b], members, idxes)
    ensures Ready(net, arch, bles[b], members, idxes)
  {
    hide FlaggedPlaced, LatchFlagged, FlaggedLatch, Waiting, InCells, BufsFeedLatches, LatchesDriven, Sole, Following,
      ListsOk, Acyclic, PlacedFlagged, OutsOk, CellsOk, AllOwned, InputsOk, CellRouted, NetKept;
    assert Legal(net, arch, bles[b]);
    forall i | 0 <= i < |members| ensures !InCells(bles[b], members[i]) {
      assert net.IsGate(members[i]) && !net.mapped[members[i]];
      UnmappedNotHeld(net, bles, pb, b, members[i]);
    }
  }

  ghost predicate Solved(net: Net, arch: Arch, bles: seq<Ble>, pb: nat, sole: bool, b: nat, members: seq<nat>,
      idxes: seq<nat>, t: Ble) {
    && PackInv(net, arch, bles, {}, pb, sole) && b < |bles| && Pattern(net, bles[b], members, idxes)
    && Fits(arch, bles[b]) && Committed(net, arch, bles[b], t, members, idxes)
  }

  lemma SolvedPlaced(net: Net, arch: Arch, bles: seq<Ble>, pb: nat, sole: bool, b: nat, members: seq<nat>,
      idxes: seq<nat>, t: Ble)
    requires Solved(net, arch, bles, pb, sole, b, members, idxes, t)
    ensures Shaped(net) && PlacedFlagged(net, bles[b := t], Elements(members), b) && FlaggedPlaced(net, bles[b := t])
  {
    hide LatchFlagged, FlaggedLatch, Waiting, NetOk, BufsFeedLatches, LatchesDriven, Sole, Following, ListsOk, Acyclic,
      Legal, OnOutput, LatchServed, Expected, AllLegal, LatchesSettled;
    assert Shaped(net) by { InvShape(net, arch, bles, pb, sole); }
    var now := bles[b := t];
    forall d: nat, c: nat | d < |now| && c < |now[d].cells| && now[d].cells[c].node.Some?
      ensures PlacedFlag(net, now[d].cells[c].node.value, d, c, Elements(members), b)
    {
      if d == b && c in idxes {
        var i :| 0 <= i < |idxes| && idxes[i] == c;
        assert members[i] in members;
      } else {
        assert bles[d].cells[c] == now[d].cells[c];
        assert PlacedFlag(net, now[d].cells[c].node.value, d, c, {}, pb);
      }
    }
    forall n: nat | net.IsGate(n) && net.mapped[n] ensures SitsAt(net, now, n) {
      assert SitsAt(net, bles, n);
    }
  }

  lemma InvShape(net: Net, arch: Arch, bles: seq<Ble>, pb: nat, sole: bool)
    requires PackInv(net, arch, bles, {}, pb, sole)
    ensures NetOk(net) && Shaped(net)
  {
  }

  lemma SolvedLatches(net: Net, arch: Arch, bles: seq<Ble>, pb: nat, sole: bool, b: nat, members: seq<nat>,
      idxes: seq<nat>, t: Ble)
    requires Solved(net, arch, bles, pb, sole, b, members, idxes, t)
    ensures Shaped(net) && LatchFlagged(net, bles[b := t], Elements(members), b) && FlaggedLatch(net, bles[b := t])
    ensures Waiting(net, bles[b := t], Elements(members), b)
  {
    hide NetOk, BufsFeedLatches, LatchesDriven, Sole, Following, ListsOk, Acyclic, Legal, OnOutput, LatchServed,
      AllLegal, PlacedFlagged, FlaggedPlaced, FirstLatch, LatchesSettled;
    InvShape(net, arch, bles, pb, sole);
    assert Shaped(net);
    var now := bles[b := t];
    forall d: nat, l: nat | d < |now| && net.IsLatch(l) && OnOutput(now[d], l)
      ensures LatchFlag(net, d, l, Elements(members), b)
    {
      if OnOutput(bles[d], l) {
        assert LatchFlag(net, d, l, {}, pb);
      } else {
        assert d == b;
        var i :| 0 <= i < |members| && Expected(net, members[i], l);
        assert net.IsGate(members[i]) && members[i] in members;
        LatchOf(net, members[i]);
      }
    }
    forall l: nat | net.IsLatch(l) && net.mapped[l] ensures 0 <= net.bleOf[l] < |now| && OnOutput(now[net.bleOf[l]], l)
    {
      assert 0 <= net.bleOf[l] < |bles| && OnOutput(bles[net.bleOf[l]], l);
    }
    forall x | x in Elements(members)
      ensures net.IsGate(x) && !net.mapped[x] && b < |now| && LatchServed(net, now[b], x)
    {
      var i :| 0 <= i < |members| && members[i] == x;
    }
  }

  /** A success of the solver keeps the invariant, with all members waiting for their flags. */
  lemma SolvedKeeps(net: Net, arch: Arch, bles: seq<Ble>, pb: nat, sole: bool, b: nat, members: seq<nat>,
      idxes: seq<nat>, t: Ble)
    requires Solved(net, arch, bles, pb, sole, b, members, idxes, t)
    ensures PackInv(net, arch, bles[b := t], Elements(members), b, sole)
  {
    hide BufsFeedLatches, LatchesDriven, Sole, Following, ListsOk, Acyclic, Legal, OnOutput, LatchServed,
      PlacedFlagged, FlaggedPlaced, FirstLatch, LatchFlagged, FlaggedLatch, Waiting, Pattern, Agree;
    InvShape(net, arch, bles, pb, sole);
    SolvedPlaced(net, arch, bles, pb, sole, b, members, idxes, t);
    SolvedLatches(net, arch, bles, pb, sole, b, members, idxes, t);
    var now := bles[b := t];
    forall d: nat | d < |now| ensures Legal(net, arch, now[d]) {
      assert Legal(net, arch, bles[d]);
    }
  }

  lemma NextWaiting(members: seq<nat>, k: nat)
    requires k < |members| && Distinct(members)
    ensures members[k] in Elements(members[k..]) && Elements(members[k..]) - {members[k]} == Elements(members[k + 1..])
  {
    assert members[k..] == [members[k]] + members[k + 1..];
    assert members[k] !in members[k + 1..];
  }
}
