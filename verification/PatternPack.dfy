/** The packing loop (pattern_pack): it ends, and when it succeeds every gate and latch is packed. */
module PatternPacking {
  import opened Seqs
  import opened LogicNetwork
  import opened NetworkPasses
  import opened LgkntwkEdits
  import opened BleState
  import opened SatSpec
  import opened BleRecord
  import opened BleLegality
  import opened BleOutputs
  import opened CombCounts
  import opened BleInputs
  import opened BleLegal
  import opened LocalDfs
  import opened PackRun
  import opened PackInvariant
  import opened PatternSpec
  import opened PatternPick
  import opened PatternScale
  import opened Packing
  import opened SolverFlags
  import opened Refusals

  /** check_all_mapped, the other way round: every gate of the list and every latch is flagged. */
  method AllMapped(nw: Lgkntwk) returns (all: bool)
    requires Prepared(nw.State())
    ensures all <==> EverythingMapped(nw.State())
  {
    PreparedIsShaped(nw.State());
    for im := 0 to |nw.list|
      invariant forall k :: 0 <= k < im ==> nw.list[k] < |nw.mapped| && nw.mapped[nw.list[k]]
    {
      assert nw.list[im] in nw.list;
      if !nw.mapped[nw.list[im]] {
        return false;
      }
    }
    for im := 0 to |nw.latches|
      invariant forall k :: 0 <= k < im ==> nw.latches[k] < |nw.mapped| && nw.mapped[nw.latches[k]]
    {
      assert nw.latches[im] in nw.latches;
      if !nw.mapped[nw.latches[im]] {
        return false;
      }
    }
    return true;
  }

  ghost predicate EverythingMapped(net: Net) {
    forall n: nat :: n < net.Size() && n < |net.mapped| && (net.IsGate(n) || net.IsLatch(n)) ==> net.mapped[n]
  }

  /** check_blank_ble_info */
  method IsBlank(arch: Arch, ble: BleInfo) returns (blank: bool)
    requires Fits(arch, ble.State())
    ensures blank <==> ble.State() == InitBle(arch)
  {
    ghost var s := ble.State();
    for im := 0 to ble.inputs.Length
      invariant forall k :: 0 <= k < im ==> s.ins[k] == NO_INPUT
    {
      if ble.inputs[im] != NO_INPUT {
        return false;
      }
    }
    for im := 0 to ble.outputs.Length
      invariant forall k :: 0 <= k < im ==> s.outs[k] == NO_OUTPUT
    {
      if ble.outputs[im] != NO_OUTPUT {
        return false;
      }
    }
    for im := 0 to ble.cells.Length
      invariant forall k :: 0 <= k < im ==> s.cells[k] == NO_CELL && s.ports[k] == Blank(|arch.cells[k]|, NO_PORT)
    {
      if ble.cells[im] != NO_CELL {
        return false;
      }
      for j := 0 to |arch.cells[im]|
        invariant forall k :: 0 <= k < j ==> s.ports[im][k] == NO_PORT
      {
        if ble.ports[im][j] != NO_PORT {
          return false;
        }
      }
      assert s.ports[im] == Blank(|arch.cells[im]|, NO_PORT);
    }
    var z := InitBle(arch);
    assert s.ins == z.ins && s.outs == z.outs && s.cells == z.cells && s.ports == z.ports;
    return true;
  }

  /** An untried, unused cell with the highest priority below n, the first such, or -1. */
  function BestCell(s: Ble, blendsTried: seq<bool>, priority: seq<nat>, n: nat): (r: (int, int))
    requires n <= |s.cells| == |blendsTried| == |priority|
    ensures -1 <= r.0 < n && (r.0 == -1 <==> r.1 == -1)
    ensures r.0 != -1 ==> !blendsTried[r.0] && !s.cells[r.0].used && r.1 == priority[r.0]
    ensures forall c :: 0 <= c < n && !blendsTried[c] && !s.cells[c].used ==> priority[c] <= r.1
    ensures forall c :: 0 <= c < r.0 && !blendsTried[c] && !s.cells[c].used ==> priority[c] < r.1
  {
    if n == 0 then (-1, -1)
    else
      var best := BestCell(s, blendsTried, priority, n - 1);
      if !blendsTried[n - 1] && !s.cells[n - 1].used && priority[n - 1] > best.1 then (n - 1, priority[n - 1]) else best
  }

  /** pick_cell_idx_from_ble_arch; priority[c] is the cell's truncated priority times its depth. */
  method PickCell(ble: BleInfo, blendsTried: array<bool>, priority: seq<nat>) returns (r: int)
    requires ble.cells.Length == blendsTried.Length == |priority|
    ensures r == BestCell(ble.State(), blendsTried[..], priority, |priority|).0
  {
    r := -1;
    var best: int := -1;
    for im := 0 to ble.cells.Length
      invariant (r, best) == BestCell(ble.State(), blendsTried[..], priority, im)
    {
      if !blendsTried[im] && !ble.cells[im].used {
        if best == -1 || priority[im] > best {
          r := im;
          best := priority[im];
        }
      }
    }
  }

  /** initial_lgkntwk_try_pattern_types and reset_lgkntwk_try_pattern_types */
  method ResetTried(nw: Lgkntwk)
    requires Prepared(nw.State())
    modifies nw`tried
    ensures |nw.tried| == old(|nw.tried|)
    ensures forall g: nat :: g < |nw.tried| && nw.State().IsGate(g) ==> nw.tried[g] == Blank(|nw.ins[g]| + 1, false)
  {
    PreparedIsShaped(nw.State());
    ghost var net := nw.State();
    for im := 0 to |nw.list|
      invariant |nw.tried| == old(|nw.tried|)
      invariant forall k :: 0 <= k < im ==>
        nw.list[k] < |nw.tried| && nw.tried[nw.list[k]] == Blank(|nw.ins[nw.list[k]]| + 1, false)
    {
      assert net.list[im] in net.list;
      assert net.IsGate(net.list[im]);
      var row: seq<bool> := [];
      for t := 0 to |nw.ins[nw.list[im]]| + 1
        invariant row == Blank(t, false)
      {
        row := row + [false];
      }
      nw.tried := nw.tried[nw.list[im] := row];
    }
    forall g: nat | g < |nw.tried| && nw.State().IsGate(g) ensures nw.tried[g] == Blank(|nw.ins[g]| + 1, false) {
      assert net.IsGate(g);
      assert g in net.list;
    }
  }

  /** The (gate, size) pairs not tried in the current cell. */
  ghost function UntriedPairs(tried: seq<seq<bool>>): set<(nat, nat)> {
    set g: nat, t: nat | g < |tried| && t < |tried[g]| && !tried[g][t] :: (g, t)
  }

  lemma GrowsFewerUntried(a: seq<seq<bool>>, b: seq<seq<bool>>)
    requires TriedGrows(a, b)
    ensures UntriedPairs(b) <= UntriedPairs(a)
  {
    forall g: nat, t: nat | g < |b| && t < |b[g]| && !b[g][t] ensures (g, t) in UntriedPairs(a) {
      assert !a[g][t];
    }
  }

  lemma TryFewerUntried(tried: seq<seq<bool>>, g: nat, t: nat)
    requires g < |tried| && t < |tried[g]| && !tried[g][t]
    ensures TriedGrows(tried, tried[g := tried[g][t := true]])
    ensures UntriedPairs(tried[g := tried[g][t := true]]) < UntriedPairs(tried)
  {
    var b := tried[g := tried[g][t := true]];
    GrowsFewerUntried(tried, b);
    assert (g, t) in UntriedPairs(tried) && (g, t) !in UntriedPairs(b);
  }

  /** The measure ignores the tried flags. */
  lemma MeasureIgnoresTried(net: Net, tried: seq<seq<bool>>)
    requires NetOk(net) && |tried| == |net.tried|
    ensures KeepsMeaning(net, net.(tried := tried)) && KeepsTrack(net, net.(tried := tried))
    ensures OpenLatches(net.(tried := tried)) == OpenLatches(net) && OpenGates(net.(tried := tried)) == OpenGates(net)
  {
    var r := net.(tried := tried);
    SameGraphMeaning(net, r);
    assert forall l: nat :: l < net.Size() ==> (OpenLatch(r, l) <==> OpenLatch(net, l));
    assert forall n: nat :: n < net.Size() ==> (OpenGate(r, n) <==> OpenGate(net, n));
  }

  lemma InvIgnoresTried(net: Net, tried: seq<seq<bool>>, arch: Arch, bles: seq<Ble>, pb: nat, sole: bool)
    requires PackInv(net, arch, bles, {}, pb, sole) && |tried| == |net.tried|
    ensures PackInv(net.(tried := tried), arch, bles, {}, pb, sole)
  {
    hide Agree, ListsOk, Acyclic, OnOutput, Legal;
    var r := net.(tried := tried);
    PlacedPrepared(net, r);
    forall b: nat | b < |bles| ensures Legal(r, arch, bles[b]) {
      assert Legal(net, arch, bles[b]);
      LegalSame(net, r, arch, bles[b]);
    }
    forall b: nat, c: nat | b < |bles| && c < |bles[b].cells| && bles[b].cells[c].node.Some?
      ensures PlacedFlag(r, bles[b].cells[c].node.value, b, c, {}, pb)
    {
      assert PlacedFlag(net, bles[b].cells[c].node.value, b, c, {}, pb);
    }
    forall n: nat | r.IsGate(n) && r.mapped[n] ensures SitsAt(r, bles, n) {
      assert SitsAt(net, bles, n);
    }
    forall b: nat, l: nat | b < |bles| && r.IsLatch(l) && OnOutput(bles[b], l) ensures LatchFlag(r, b, l, {}, pb) {
      assert LatchFlag(net, b, l, {}, pb);
    }
    forall l: nat | r.IsLatch(l) && r.mapped[l] ensures 0 <= r.bleOf[l] < |bles| && OnOutput(bles[r.bleOf[l]], l) {
      assert net.mapped[l];
    }
  }

  /** A new blank BLE at the end of the list. */
  lemma InvNewBle(net: Net, arch: Arch, bles: seq<Ble>, pb: nat, sole: bool)
    requires PackInv(net, arch, bles, {}, pb, sole)
    ensures PackInv(net, arch, bles + [InitBle(arch)], {}, |bles|, sole)
  {
    hide Agree, ListsOk, Acyclic, Legal, BufsFeedLatches, LatchesDriven, Sole, Following;
    var now := bles + [InitBle(arch)];
    InvShape(net, arch, bles, pb, sole);
    BlankHolds(arch);
    forall b: nat | b < |now| ensures Legal(net, arch, now[b]) {
      if b < |bles| {
        assert Legal(net, arch, bles[b]);
      } else {
        BlankIsLegal(net, arch);
      }
    }
    forall b: nat, c: nat | b < |now| && c < |now[b].cells| && now[b].cells[c].node.Some?
      ensures PlacedFlag(net, now[b].cells[c].node.value, b, c, {}, |bles|)
    {
      assert PlacedFlag(net, bles[b].cells[c].node.value, b, c, {}, pb);
    }
    forall n: nat | net.IsGate(n) && net.mapped[n] ensures SitsAt(net, now, n) {
      assert SitsAt(net, bles, n);
    }
    forall b: nat, l: nat | b < |now| && net.IsLatch(l) && OnOutput(now[b], l) ensures LatchFlag(net, b, l, {}, |bles|)
    {
      assert b < |bles|;
      assert LatchFlag(net, b, l, {}, pb);
    }
    forall l: nat | net.IsLatch(l) && net.mapped[l] ensures 0 <= net.bleOf[l] < |now| && OnOutput(now[net.bleOf[l]], l)
    {
      assert net.mapped[l];
    }
  }

  lemma BlankHolds(arch: Arch)
    ensures forall n: nat :: !OnOutput(InitBle(arch), n)
    ensures forall c :: 0 <= c < |arch.cells| ==> InitBle(arch).cells[c].node.None?
  {
    forall n: nat ensures !OnOutput(InitBle(arch), n) {
      OnOutputIs(InitBle(arch), n);
    }
  }

  /** What is true when packing succeeds. */
  ghost predicate PackedRight(net: Net, arch: Arch, bles: seq<Ble>)
    requires Shaped(net)
  {
    && EverythingMapped(net)
    && AllLegal(net, arch, bles)
    && (forall n: nat :: net.IsGate(n) ==> SitsAt(net, bles, n))
    && (forall n: nat, b: nat, c: nat :: b < |bles| && c < |bles[b].cells| && bles[b].cells[c].node == Some(n) ==>
          net.IsGate(n) && net.bleOf[n] == b && net.cellOf[n] == c)
    && (forall l: nat {:trigger net.bleOf[l]} :: net.IsLatch(l) ==>
      0 <= net.bleOf[l] < |bles| && OnOutput(bles[net.bleOf[l]], l))
  }

  /** Exact cover: when everything is flagged, every gate sits in exactly one cell of exactly one BLE,
      every cell holds a gate, and every latch leaves its BLE on an output. */
  lemma InvGivesPacked(net: Net, arch: Arch, bles: seq<Ble>, pb: nat, sole: bool)
    requires PackInv(net, arch, bles, {}, pb, sole) && EverythingMapped(net)
    ensures Shaped(net) && PackedRight(net, arch, bles)
  {
    hide Agree, ListsOk, Acyclic, OnOutput, BufsFeedLatches, LatchesDriven, Sole, Following, InputsOk, CellRouted,
      NetKept, OutsOk, AllOwned;
    forall n: nat, b: nat, c: nat | b < |bles| && c < |bles[b].cells| && bles[b].cells[c].node == Some(n)
      ensures net.IsGate(n) && net.bleOf[n] == b && net.cellOf[n] == c
    {
      assert PlacedFlag(net, n, b, c, {}, pb);
      assert Legal(net, arch, bles[b]);
    }
    forall n: nat | net.IsGate(n) ensures SitsAt(net, bles, n) {
      assert net.mapped[n];
    }
    forall l: nat | net.IsLatch(l) ensures 0 <= net.bleOf[l] < |bles| && OnOutput(bles[net.bleOf[l]], l) {
      assert net.mapped[l];
    }
  }

  // ----- the loops

  lemma InvParts(net: Net, arch: Arch, bles: seq<Ble>, pb: nat, sole: bool)
    requires PackInv(net, arch, bles, {}, pb, sole)
    ensures Prepared(net) && NetOk(net) && Shaped(net) && LatchesDriven(net) && (sole ==> Following(net))
    ensures forall b: nat :: b < |bles| ==> Fits(arch, bles[b]) && CellsOk(net, bles[b])
  {
    hide Agree, ListsOk, Acyclic, PlacedFlagged, FlaggedPlaced, LatchFlagged, FlaggedLatch, Sole, Following,
      LatchesDriven, BufsFeedLatches, InputsOk, CellRouted, NetKept, OutsOk, AllOwned, CellsOk;
    forall b: nat | b < |bles| ensures Fits(arch, bles[b]) && CellsOk(net, bles[b]) {
      assert Legal(net, arch, bles[b]);
    }
  }

  /** The members of a pattern are what run_sat_solver asks for. */
  lemma PatternMembers(net: Net, mode: MemberType, members: seq<nat>)
    requires NetOk(net) && PatternOf(net, mode, members)
    ensures members != [] && Distinct(members)
    ensures forall i :: 0 <= i < |members| ==>
      net.IsGate(members[i]) && members[i] < |net.mapped| && !net.mapped[members[i]]
  {
    hide Agree, SatPreds, TopoOrdered;
  }

  /** The innermost loop: patterns are tried in the cell until one fits or none is left. */
  method FillCell(nw: Lgkntwk, arch: Arch, ble: BleInfo, bleNum: nat, cell: nat, archType: nat, advice: Advice,
      opts: Options,
                  ghost others: seq<Ble>, ghost sole: bool) returns (ok: bool)
    requires ble.Apart() && bleNum == |others| && Allots(advice.find) && (opts.mode == Normal ==> sole) && archType >= 1
    requires PackInv(nw.State(), arch, others + [ble.State()], {}, bleNum, sole)
    requires Shaped(nw.State()) && TriedShape(nw.State())
    requires cell < ble.cells.Length && ble.cells[cell].node.None? && Fresh(nw.State())
    modifies nw, ble.inputs, ble.ports, ble.cells, ble.outputs
    ensures PackInv(nw.State(), arch, others + [ble.State()], {}, bleNum, sole)
    ensures ok ==> Progress(old(nw.State()), nw.State()) && Filled(old(ble.State()), ble.State(), cell)
    ensures !ok ==> CellRefuses(old(nw.State()), arch, old(ble.State()), cell, archType, advice, opts)
    ensures !ok ==> ble.State() == old(ble.State()) && nw.State() == old(nw.State()).(tried := nw.tried)
    ensures !ok ==> |nw.tried| == old(|nw.tried|)
  {
    hide PackInv, Progress, PatternOf, TriedShape, Prepared, Shaped, TriedGrows, UntriedPairs, LatchesDriven,
      Following, Fits, CellsOk, NetOk, Known, CellRefuses, Picked, Solvable, Filled, SameButTried, Fresh;
    ghost var start, s := nw.State(), ble.State();
    InvParts(start, arch, others + [s], bleNum, sole);
    FreshKnows(start, arch, s, cell, advice, opts);
    ok := false;
    while true
      invariant |nw.tried| == |start.tried|
      invariant !ok && ble.State() == s && nw.State() == start.(tried := nw.tried)
      invariant PackInv(nw.State(), arch, others + [s], {}, bleNum, sole)
      invariant Shaped(nw.State()) && TriedShape(nw.State()) && Known(start, nw.tried, arch, s, cell, advice, opts)
      decreases UntriedPairs(nw.tried)
    {
      ghost var net := nw.State();
      AreSame(start, net);
      InvParts(net, arch, others + [s], bleNum, sole);
      var ptype,
        members := PickPatternFitBle(nw, ble, opts.mode, archType, advice.weigh, advice.edgeWeight, opts.forbid);
      GrowsLength(net.tried, nw.tried);
      GrowsShape(net, nw.tried);
      GrowsFewerUntried(net.tried, nw.tried);
      InvIgnoresTried(net, nw.tried, arch, others + [s], bleNum, sole);
      assert nw.State() == net.(tried := nw.tried);
      PickedKnown(start, net, nw.tried, arch, s, cell, archType, advice, opts, members);
      if ptype == 0 {
        return;
      }
      var root := members[ptype - 1];
      ghost var picked := nw.State();
      TryFewerUntried(nw.tried, root, ptype - 1);
      GrowsLength(nw.tried, nw.tried[root := nw.tried[root][ptype - 1 := true]]);
      var row := nw.tried[root][ptype - 1 := true];
      nw.tried := nw.tried[root := row];
      GrowsShape(picked, nw.tried);
      InvIgnoresTried(picked, nw.tried, arch, others + [s], bleNum, sole);
      assert nw.State() == picked.(tried := nw.tried);
      PatternMembers(picked, opts.mode, members);
      MeasureIgnoresTried(start, nw.tried);
      PickedIsOffered(net, s, archType, advice, opts, net.tried, picked.tried, members);
      ghost var before := nw.State();
      ok := RunSatSolver(nw, arch, ble, bleNum, members, cell, advice.find, others, sole);
      if ok {
        ProgressFrom(start, before, nw.State());
        return;
      }
      AreSame(start, picked);
      AreSame(start, before);
      RefusedKnown(start, net, picked, before, arch, s, cell, advice, opts, members);
    }
  }

  lemma AreSame(a: Net, b: Net)
    requires Shaped(a) && Shaped(b) && b == a.(tried := b.tried)
    ensures SameButTried(a, b)
  {
  }

  lemma PickedIsOffered(net: Net, s: Ble, archType: nat, advice: Advice, opts: Options, was: seq<seq<bool>>,
      now: seq<seq<bool>>, members: seq<nat>)
    requires Picked(net, ScaleOf(net, s, advice, opts), opts.mode, archType, was, now, members) && members != []
    ensures NetOk(net) && IsOffered(net, opts.mode, members)
  {
  }

  lemma ProgressFrom(a: Net, b: Net, c: Net)
    requires OpenLatches(a) == OpenLatches(b) && OpenGates(a) == OpenGates(b) && KeepsMeaning(a, b) && Progress(b, c)
    requires KeepsTrack(a, b)
    ensures Progress(a, c)
  {
    hide SameMeaning, KeepsTrack, Agree, ArityOk, OpenLatches, OpenGates;
    KeepsMeaningTrans(a, b, c);
    TrackTrans(a, b, c);
  }

  /** Cells still worth trying. */
  ghost function CellsLeft(blendsTried: seq<bool>): set<nat> {
    set c: nat | c < |blendsTried| && !blendsTried[c]
  }

  lemma FewerCells(blendsTried: seq<bool>, c: nat)
    requires c < |blendsTried| && !blendsTried[c]
    ensures CellsLeft(blendsTried[c := true]) < CellsLeft(blendsTried)
  {
    assert c in CellsLeft(blendsTried);
  }

  /** Nothing was packed and the network is as it was, or the measure went down. */
  ghost predicate Advanced(start: Net, net: Net, blank: bool) {
    (blank && |net.tried| == |start.tried| && net == start.(tried := net.tried)) || Progress(start, net)
  }

  method ResetAll(nw: Lgkntwk, ghost arch: Arch, ghost bles: seq<Ble>, ghost pb: nat, ghost sole: bool)
    requires PackInv(nw.State(), arch, bles, {}, pb, sole)
    modifies nw`tried
    ensures PackInv(nw.State(), arch, bles, {}, pb, sole)
    ensures Shaped(nw.State()) && TriedShape(nw.State()) && Fresh(nw.State())
    ensures |nw.tried| == old(|nw.tried|) && nw.State() == old(nw.State()).(tried := nw.tried)
  {
    hide PackInv, Prepared, LatchesDriven, Following, Fits, CellsOk;
    ghost var net := nw.State();
    InvParts(net, arch, bles, pb, sole);
    ResetTried(nw);
    InvIgnoresTried(net, nw.tried, arch, bles, pb, sole);
    assert nw.State() == net.(tried := nw.tried);
    InvParts(nw.State(), arch, bles, pb, sole);
    ResetShape(nw.State());
  }

  lemma ResetShape(net: Net)
    requires Shaped(net)
    requires forall g: nat :: g < |net.tried| && net.IsGate(g) ==> net.tried[g] == Blank(|net.ins[g]| + 1, false)
    ensures TriedShape(net) && Fresh(net)
  {
  }

  /** The middle loop: every cell of one BLE is tried once. */
  method FillBle(nw: Lgkntwk, arch: Arch, ble: BleInfo, bleNum: nat, advice: Advice, opts: Options,
                 ghost others: seq<Ble>, ghost sole: bool)
    requires ble.Apart() && bleNum == |others| && Allots(advice.find) && (opts.mode == Normal ==> sole)
    requires |advice.priority| == |arch.cells| && Fits(arch, ble.State())
    requires PackInv(nw.State(), arch, others + [ble.State()], {}, bleNum, sole)
    requires Shaped(nw.State()) && TriedShape(nw.State()) && Fresh(nw.State())
    modifies nw, ble.inputs, ble.ports, ble.cells, ble.outputs
    ensures PackInv(nw.State(), arch, others + [ble.State()], {}, bleNum, sole)
    ensures Shaped(nw.State()) && TriedShape(nw.State()) && Fresh(nw.State())
    ensures Advanced(old(nw.State()), nw.State(), ble.State() == old(ble.State()))
    ensures ble.State() == old(ble.State()) ==>
      BleRefuses(old(nw.State()), arch, old(ble.State()), advice, opts) && SameButTried(old(nw.State()), nw.State())
  {
    hide PackInv, Progress, TriedShape, Prepared, Shaped, LatchesDriven, Following, CellsLeft, TriedGrows, Fresh,
      Offering, BleRefuses, CellRefuses, Filled, SameButTried, Advanced, NetOk;
    ghost var start, s := nw.State(), ble.State();
    InvParts(start, arch, others + [s], bleNum, sole);
    var blendsTried := new bool[|arch.cells|](c => false);
    ghost var placed := false;
    OfferingStarts(start, arch, s, advice, opts, blendsTried[..]);
    NoAdvance(start);
    while true
      invariant fresh(blendsTried) && blendsTried.Length == |arch.cells|
      invariant PackInv(nw.State(), arch, others + [ble.State()], {}, bleNum, sole)
      invariant Shaped(nw.State()) && TriedShape(nw.State()) && Fresh(nw.State())
      invariant Advanced(start, nw.State(), ble.State() == s)
      invariant Offering(start, nw.State(), arch, s, ble.State(), advice, opts, blendsTried[..], placed)
      decreases CellsLeft(blendsTried[..])
    {
      ghost var net, now := nw.State(), ble.State();
      InvParts(net, arch, others + [now], bleNum, sole);
      assert (others + [now])[bleNum] == now;
      var cell := PickCell(ble, blendsTried, advice.priority);
      if cell == -1 {
        OfferingEnds(start, net, arch, s, now, advice, opts, blendsTried[..], placed);
        return;
      }
      var archType := 1 + advice.maxSat(ble.State(), cell);
      assert now.cells[cell] == ble.cells[cell];
      var ok := FillCell(nw, arch, ble, bleNum, cell, archType, advice, opts, others, sole);
      ghost var filled := nw.State();
      InvParts(filled, arch, others + [ble.State()], bleNum, sole);
      ResetAll(nw, arch, others + [ble.State()], bleNum, sole);
      AdvancedStep(start, net, filled, nw.State(), now == s, ble.State() == s, ok);
      if !ok {
        AreSame(net, filled);
        AreSame(net, nw.State());
      }
      OfferingNext(start, net, nw.State(), arch, s, now, ble.State(), advice, opts, blendsTried[..], placed, cell, ok);
      placed := placed || ok;
      FewerCells(blendsTried[..], cell);
      ghost var left := blendsTried[..];
      blendsTried[cell] := true;
      assert blendsTried[..] == left[cell := true];
    }
  }

  lemma NoAdvance(start: Net)
    ensures Advanced(start, start, true)
  {
  }

  lemma AdvancedStep(start: Net, net: Net, filled: Net, now: Net, was: bool, still: bool, ok: bool)
    requires Advanced(start, net, was) && |now.tried| == |filled.tried| && now == filled.(tried := now.tried)
    requires NetOk(start) && NetOk(net) && NetOk(filled)
    requires ok ==> Progress(net, filled)
    requires !ok ==> still == was && filled == net.(tried := filled.tried) && |filled.tried| == |net.tried|
    ensures Advanced(start, now, still)
  {
    hide Progress, KeepsMeaning, NetOk, Doomed;
    MeasureIgnoresTried(filled, now.tried);
    if ok {
      ProgressTo(net, filled, now);
      if Progress(start, net) {
        ProgressTrans(start, net, now);
      } else {
        MeasureIgnoresTried(start, net.tried);
        ProgressFrom(start, net, now);
      }
    } else {
      MeasureIgnoresTried(net, filled.tried);
      if Progress(start, net) {
        KeepsMeaningTrans(net, filled, now);
        ProgressTo(start, net, now);
      }
    }
  }

  lemma ProgressTo(a: Net, b: Net, c: Net)
    requires OpenLatches(c) == OpenLatches(b) && OpenGates(c) == OpenGates(b) && Progress(a, b) && KeepsMeaning(b, c)
    requires KeepsTrack(b, c)
    ensures Progress(a, c)
  {
    hide SameMeaning, KeepsTrack, Agree, ArityOk, OpenLatches, OpenGates;
    KeepsMeaningTrans(a, b, c);
    TrackTrans(a, b, c);
  }

  datatype Outcome = Packed(bles: seq<Ble>) | NoSuitable

  /** pattern_pack. The outer loop ends because each BLE that is not blank has made progress on
      (unmapped latches no buffer drives, unmapped gates), although packing creates buffers, and a
      blank BLE ends it at once. On success nothing is left out and every BLE is legal; and no gate had
      two latches at the start, since a second one is never mapped. */
  method PatternPack(nw: Lgkntwk, arch: Arch, advice: Advice, opts: Options, ghost sole: bool) returns (r: Outcome)
    requires Allots(advice.find) && |advice.priority| == |arch.cells|
    requires NetSide(nw.State(), sole) && (opts.mode == Normal ==> sole)
    requires forall n: nat :: n < |nw.kind| && n < |nw.mapped| ==> !nw.mapped[n]
    modifies nw
    ensures Shaped(nw.State()) && KeepsMeaning(old(nw.State()), nw.State()) && KeepsTrack(old(nw.State()), nw.State())
    ensures r.Packed? ==> PackedRight(nw.State(), arch, r.bles)
    ensures r.Packed? ==> Shaped(old(nw.State())) && OneLatch(old(nw.State()))
    ensures r.NoSuitable? ==> !EverythingMapped(nw.State()) && RefusesAll(nw.State(), arch, advice, opts)
    ensures NetSide(nw.State(), sole)
  {
    hide PackInv, TriedShape, Prepared, Shaped, LatchesDriven, Following, EverythingMapped, NetSide, OpenLatches,
      OpenGates, InitBle, KeepsMeaning, NetOk, KeepsTrack, Advanced, Fresh, BleRefuses, CellRefuses, RefusesAll,
      SameButTried;
    var packed: seq<Ble> := [];
    ghost var net := nw.State();
    NothingPacked(net, arch, sole);
    InvShape(net, arch, [], 0, sole);
    ResetAll(nw, arch, [], 0, sole);
    MeasureIgnoresTried(net, nw.tried);
    ghost var pb: nat := 0;
    while true
      invariant KeepsMeaning(net, nw.State()) && KeepsTrack(net, nw.State())
      invariant PackInv(nw.State(), arch, packed, {}, pb, sole)
      invariant Shaped(nw.State()) && TriedShape(nw.State()) && Fresh(nw.State())
      decreases OpenLatches(nw.State()), OpenGates(nw.State())
    {
      InvParts(nw.State(), arch, packed, pb, sole);
      InvSide(nw.State(), arch, packed, pb, sole);
      var all := AllMapped(nw);
      if all {
        InvGivesPacked(nw.State(), arch, packed, pb, sole);
        NoLatchLeft(net, nw.State());
        return Packed(packed);
      }
      ghost var start := nw.State();
      var ble := new BleInfo(arch);
      assert Fits(arch, ble.State());
      InvNewBle(start, arch, packed, pb, sole);
      FillBle(nw, arch, ble, |packed|, advice, opts, packed, sole);
      InvParts(nw.State(), arch, packed + [ble.State()], |packed|, sole);
      assert (packed + [ble.State()])[|packed|] == ble.State();
      AdvancedMeaning(start, nw.State(), ble.State() == InitBle(arch));
      KeepsMeaningTrans(net, start, nw.State());
      TrackTrans(net, start, nw.State());
      var blank := IsBlank(arch, ble);
      all := AllMapped(nw);
      if blank && !all {
        InvSide(nw.State(), arch, packed + [ble.State()], |packed|, sole);
        BlankRefuses(start, nw.State(), arch, advice, opts);
        return NoSuitable;
      }
      StillOpen(start, nw.State(), blank);
      packed := packed + [ble.State()];
      pb := |packed| - 1;
    }
  }

  lemma InvSide(net: Net, arch: Arch, bles: seq<Ble>, pb: nat, sole: bool)
    requires PackInv(net, arch, bles, {}, pb, sole)
    ensures NetSide(net, sole) && NetOk(net)
  {
    hide Agree, ArityOk, AllLegal, PlacedFlagged, FlaggedPlaced, LatchFlagged, FlaggedLatch, Sole, Following;
  }

  lemma NoLatchLeft(start: Net, end: Net)
    requires NetOk(start) && KeepsTrack(start, end) && EverythingMapped(end)
    requires forall n: nat :: n < start.Size() && n < |start.mapped| ==> !start.mapped[n]
    ensures OneLatch(start)
  {
    hide NetOk, KeepsDoomed, KeepsPins, OneLatch;
    PackedHasOneLatch(start, end);
  }

  lemma AdvancedMeaning(start: Net, net: Net, blank: bool)
    requires NetOk(start) && Advanced(start, net, blank)
    ensures KeepsMeaning(start, net) && KeepsTrack(start, net)
  {
    hide KeepsMeaning, Lower, NetOk, KeepsTrack;
    if !Progress(start, net) {
      MeasureIgnoresTried(start, net.tried);
    }
  }

  /** Without progress the flags are as before, so not everything is mapped. */
  lemma StillOpen(start: Net, net: Net, blank: bool)
    requires Advanced(start, net, blank) && !EverythingMapped(start) && (blank ==> EverythingMapped(net))
    ensures Progress(start, net)
  {
  }

  lemma NothingPacked(net: Net, arch: Arch, sole: bool)
    requires NetSide(net, sole)
    requires forall n: nat :: n < |net.kind| && n < |net.mapped| ==> !net.mapped[n]
    ensures PackInv(net, arch, [], {}, 0, sole)
  {
    hide Agree, ListsOk, Acyclic, Sole, Following, BufsFeedLatches, LatchesDriven;
  }
}
