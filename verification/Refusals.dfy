/** What it means that nothing more fits a cell, and a BLE: every pattern of every unmapped gate is
    forbidden, unattractive, or refused by the solver. */
module Refusals {
  import opened Seqs
  import opened LogicNetwork
  import opened NetworkPasses
  import opened BleState
  import opened SatSpec
  import opened BleOutputs
  import opened CombCounts
  import opened LocalDfs
  import opened SolverFlags
  import opened PatternSpec
  import opened PatternScale
  import opened PatternPick
  import opened Packing

  /** Everything the packer consults but does not compute here: candidate cells, pattern sizes,
      attraction, edge weights and cell priorities. */
  datatype Advice = Advice(find: CellFinder, maxSat: (Ble, nat) -> nat, weigh: Weigher,
                           edgeWeight: (nat, nat) -> real, priority: seq<nat>)

  datatype Options = Options(mode: MemberType, forbid: bool)

  function ScaleOf(net: Net, s: Ble, advice: Advice, opts: Options): Scale {
    Scale(Bare(net), s, advice.weigh, opts.forbid)
  }

  /** The pattern is forbidden, weighs no more than nothing, or does not fit. */
  ghost predicate Hopeless(net: Net, arch: Arch, s: Ble, cell: nat, advice: Advice, opts: Options, cand: seq<nat>)
    requires cand != []
  {
    var sc := ScaleOf(net, s, advice, opts);
    || Forbids(sc, cand) || NotBetter(sc, Score(sc, cand), Attraction(-1.0, 0.0))
    || !Solvable(net, arch, s, cand, cell, advice.find)
  }

  /** A pattern of the gate with t members is hopeless. */
  ghost predicate Turned(net: Net, arch: Arch, s: Ble, cell: nat, advice: Advice, opts: Options, g: nat, t: nat)
    requires NetOk(net)
  {
    exists cand :: cand != [] && IsOffered(net, opts.mode, cand) && |cand| == t && cand[t - 1] == g
      && Hopeless(net, arch, s, cell, advice, opts, cand)
  }

  /** Every unmapped gate is turned away at every size up to archType. */
  ghost predicate CellRefuses(net: Net, arch: Arch, s: Ble, cell: nat, archType: nat, advice: Advice, opts: Options) {
    NetOk(net)
    && forall g: nat, t: nat ::
         net.IsGate(g) && g < |net.mapped| && !net.mapped[g]
         && 1 <= t <= archType && t <= |SatPreds(net, opts.mode, g, |net.ins[g]|)| + 1
         ==> Turned(net, arch, s, cell, advice, opts, g, t)
  }

  /** Every unused cell refuses. */
  ghost predicate BleRefuses(net: Net, arch: Arch, s: Ble, advice: Advice, opts: Options) {
    forall c: nat :: c < |s.cells| && !s.cells[c].used ==>
      CellRefuses(net, arch, s, c, 1 + advice.maxSat(s, c), advice, opts)
  }

  /** Not even a blank BLE takes anything, in any of its cells. */
  ghost predicate RefusesAll(net: Net, arch: Arch, advice: Advice, opts: Options) {
    forall c: nat :: c < |arch.cells| ==>
      CellRefuses(net, arch, InitBle(arch), c, 1 + advice.maxSat(InitBle(arch), c), advice, opts)
  }

  lemma BlankRefuses(a: Net, b: Net, arch: Arch, advice: Advice, opts: Options)
    requires NetOk(b) && SameButTried(a, b) && BleRefuses(a, arch, InitBle(arch), advice, opts)
    ensures RefusesAll(b, arch, advice, opts)
  {
    hide CellRefuses, NetOk, SameButTried;
    forall c: nat | c < |arch.cells|
      ensures CellRefuses(b, arch, InitBle(arch), c, 1 + advice.maxSat(InitBle(arch), c), advice, opts)
    {
      RefusesTried(a, b, arch, InitBle(arch), c, 1 + advice.maxSat(InitBle(arch), c), advice, opts);
    }
  }

  // ----- the loop over the cells of one BLE

  /** Nothing has been placed, and the cells looked at so far refuse; or some cell has been filled. */
  ghost predicate Offering(start: Net, net: Net, arch: Arch, s: Ble, now: Ble, advice: Advice, opts: Options,
      looked: seq<bool>, filled: bool) {
    && |now.cells| == |s.cells|
    && (!filled ==>
          now == s && SameButTried(start, net)
          && forall c: nat :: c < |looked| && c < |s.cells| && looked[c] ==>
               CellRefuses(start, arch, s, c, 1 + advice.maxSat(s, c), advice, opts))
    && (filled ==> exists c :: 0 <= c < |s.cells| && s.cells[c].node.None? && now.cells[c].node.Some?)
  }

  lemma OfferingNext(start: Net, net: Net, net': Net, arch: Arch, s: Ble, now: Ble, now': Ble, advice: Advice,
      opts: Options, looked: seq<bool>, filled: bool, cell: nat, ok: bool)
    requires NetOk(start) && Offering(start, net, arch, s, now, advice, opts, looked, filled) && cell < |looked|
    requires ok ==> Filled(now, now', cell)
    requires !ok ==> now' == now && SameButTried(net, net')
    requires !ok ==> CellRefuses(net, arch, now, cell, 1 + advice.maxSat(now, cell), advice, opts)
    ensures Offering(start, net', arch, s, now', advice, opts, looked[cell := true], filled || ok)
  {
    hide CellRefuses, NetOk;
    if filled {
      var c :| 0 <= c < |s.cells| && s.cells[c].node.None? && now.cells[c].node.Some?;
      assert ok ==> now'.cells[c] == now.cells[c];
    } else if ok {
      assert s.cells[cell].node.None? && now'.cells[cell].node.Some?;
    } else {
      SameBack(start, net);
      RefusesTried(net, start, arch, s, cell, 1 + advice.maxSat(s, cell), advice, opts);
    }
  }

  lemma OfferingStarts(start: Net, arch: Arch, s: Ble, advice: Advice, opts: Options, looked: seq<bool>)
    requires Shaped(start) && forall c :: 0 <= c < |looked| ==> !looked[c]
    ensures Offering(start, start, arch, s, s, advice, opts, looked, false)
  {
    hide CellRefuses;
  }

  lemma OfferingEnds(start: Net, net: Net, arch: Arch, s: Ble, now: Ble, advice: Advice, opts: Options,
      looked: seq<bool>,
      filled: bool)
    requires Offering(start, net, arch, s, now, advice, opts, looked, filled) && |looked| == |s.cells|
    requires forall c :: 0 <= c < |looked| && !looked[c] ==> now.cells[c].used
    ensures now == s ==> BleRefuses(start, arch, s, advice, opts) && SameButTried(start, net)
  {
    hide CellRefuses, SameButTried;
  }

  // ----- the tried flags do not matter

  lemma SolvableTried(a: Net, b: Net, arch: Arch, s: Ble, cand: seq<nat>, cell: nat, find: CellFinder)
    requires cand != [] && SameButTried(a, b) && Solvable(a, arch, s, cand, cell, find)
    ensures Solvable(b, arch, s, cand, cell, find)
  {
    hide MiniSat, Fits;
    var p := find(s, cell, |cand| - 1).value;
    MiniSatTried(a, b, arch, s, cand, p + [cell]);
  }

  lemma HopelessTried(a: Net, b: Net, arch: Arch, s: Ble, cell: nat, advice: Advice, opts: Options, cand: seq<nat>)
    requires SameButTried(a, b) && cand != [] && Hopeless(a, arch, s, cell, advice, opts, cand)
    ensures Hopeless(b, arch, s, cell, advice, opts, cand)
  {
    hide Solvable, Forbids, NotBetter, Score;
    if Solvable(b, arch, s, cand, cell, advice.find) {
      SameBack(a, b);
      SolvableTried(b, a, arch, s, cand, cell, advice.find);
    }
    assert Bare(a) == Bare(b);
  }

  lemma SameBack(a: Net, b: Net)
    requires SameButTried(a, b)
    ensures SameButTried(b, a)
  {
  }

  lemma TurnedTried(a: Net, b: Net, arch: Arch, s: Ble, cell: nat, advice: Advice, opts: Options, g: nat, t: nat)
    requires NetOk(a) && NetOk(b) && SameButTried(a, b) && Turned(a, arch, s, cell, advice, opts, g, t)
    ensures Turned(b, arch, s, cell, advice, opts, g, t)
  {
    hide Hopeless, NetOk, SameButTried, Offered;
    var cand :| cand != [] && IsOffered(a, opts.mode, cand) && |cand| == t && cand[t - 1] == g
      && Hopeless(a, arch, s, cell, advice, opts, cand);
    var preds :| Offered(a, opts.mode, cand, preds);
    SameIs(a, b);
    OfferedIgnoresTried(a, b, opts.mode, cand, preds);
    HopelessTried(a, b, arch, s, cell, advice, opts, cand);
  }

  lemma SameIs(a: Net, b: Net)
    requires SameButTried(a, b)
    ensures b == a.(tried := b.tried)
  {
  }

  lemma RefusesTried(a: Net, b: Net, arch: Arch, s: Ble, cell: nat, archType: nat, advice: Advice, opts: Options)
    requires NetOk(b) && SameButTried(a, b) && CellRefuses(a, arch, s, cell, archType, advice, opts)
    ensures CellRefuses(b, arch, s, cell, archType, advice, opts)
  {
    hide Turned, Agree, ArityOk;
    forall g: nat, t: nat
      | b.IsGate(g) && g < |b.mapped| && !b.mapped[g] && 1 <= t <= archType
        && t <= |SatPreds(b, opts.mode, g, |b.ins[g]|)| + 1
      ensures Turned(b, arch, s, cell, advice, opts, g, t)
    {
      SatPredsIgnoresTried(a, b, opts.mode, g, |a.ins[g]|);
      TurnedTried(a, b, arch, s, cell, advice, opts, g, t);
    }
  }

  // ----- the loop over the patterns of one cell

  /** Every flag stands for a pattern that has been turned away. */
  ghost predicate Known(start: Net, now: seq<seq<bool>>, arch: Arch, s: Ble, cell: nat, advice: Advice, opts: Options)
  {
    NetOk(start)
    && forall g: nat, t: nat ::
         start.IsGate(g) && g < |start.mapped| && !start.mapped[g] && g < |now| && t < |now[g]| && now[g][t]
         ==> Turned(start, arch, s, cell, advice, opts, g, t + 1)
  }

  lemma OneTurned(start: Net, net: Net, arch: Arch, s: Ble, cell: nat, advice: Advice, opts: Options, cand: seq<nat>)
    requires NetOk(start) && NetOk(net) && SameButTried(start, net) && cand != [] && IsOffered(net, opts.mode, cand)
    requires Hopeless(net, arch, s, cell, advice, opts, cand)
    ensures Turned(start, arch, s, cell, advice, opts, cand[|cand| - 1], |cand|)
  {
    hide Hopeless, NetOk, SameButTried;
    assert Turned(net, arch, s, cell, advice, opts, cand[|cand| - 1], |cand|);
    SameBackOk(start, net);
    TurnedTried(net, start, arch, s, cell, advice, opts, cand[|cand| - 1], |cand|);
  }

  lemma SameBackOk(a: Net, b: Net)
    requires SameButTried(a, b)
    ensures SameButTried(b, a)
  {
    SameBack(a, b);
  }

  /** The pattern of size t that has been weighed for gate g, if it is flagged now and was not, is forbidden;
      and if nothing was picked and it is not flagged, it weighs no more than nothing. */
  lemma WeighedIsTurned(start: Netlist, net: Netlist, arch: Arch, s: Ble, cell: nat, advice: Advice, opts: Options,
      archType: nat, was: seq<bool>, row: seq<bool>, best: Attraction, g: nat, preds: seq<nat>, t: nat)
    requires NetOk(start) && NetOk(net) && SameButTried(start, net) && g < net.Size() && net.IsGate(g)
      && g < |net.mapped| && !net.mapped[g]
    requires Considered(net, ScaleOf(net, s, advice, opts), opts.mode, archType, was, row, best, g, preds)
    requires 1 <= t <= Limit(archType, preds + [g])
    requires (row[t - 1] && !was[t - 1]) || (!row[t - 1] && best == Attraction(-1.0, 0.0))
    ensures Turned(start, arch, s, cell, advice, opts, g, t)
  {
    hide Prepared, NetOk, SortedPreds, SameButTried, Solvable, Forbids, NotBetter, Score, Offered, Turned;
    var all := preds + [g];
    var cand := all[|all| - t..];
    assert Weighed(ScaleOf(net, s, advice, opts), was, row, all, t, best);
    SuffixIsOffered(net, opts.mode, g, preds, t);
    SuffixSplits(preds, g, |preds| + 1 - t);
    assert Hopeless(net, arch, s, cell, advice, opts, cand);
    OneTurned(start, net, arch, s, cell, advice, opts, cand);
  }

  lemma PickedKnown(start: Netlist, net: Netlist, now: seq<seq<bool>>, arch: Arch, s: Ble, cell: nat, archType: nat,
      advice: Advice, opts: Options, members: seq<nat>)
    requires NetOk(start) && NetOk(net) && SameButTried(start, net)
      && Known(start, net.tried, arch, s, cell, advice, opts)
    requires Picked(net, ScaleOf(net, s, advice, opts), opts.mode, archType, net.tried, now, members)
    ensures Known(start, now, arch, s, cell, advice, opts)
    ensures members == [] ==> CellRefuses(start, arch, s, cell, archType, advice, opts)
  {
    hide Agree, ArityOk, Acyclic, ListsOk, Turned, Considered, IsOffered, Untried, Displaces;
    forall g: nat, t: nat
      | start.IsGate(g) && g < |start.mapped| && !start.mapped[g] && g < |now| && t < |now[g]| && now[g][t]
      ensures Turned(start, arch, s, cell, advice, opts, g, t + 1)
    {
      if !(g < |net.tried| && t < |net.tried[g]| && net.tried[g][t]) {
        FlagIsTurned(start, net, now, arch, s, cell, archType, advice, opts, members, g, t);
      }
    }
    if members == [] {
      forall g: nat, t: nat
        | start.IsGate(g) && g < |start.mapped| && !start.mapped[g] && 1 <= t <= archType
          && t <= |SatPreds(start, opts.mode, g, |start.ins[g]|)| + 1
        ensures Turned(start, arch, s, cell, advice, opts, g, t)
      {
        SizeIsTurned(start, net, now, arch, s, cell, archType, advice, opts, g, t);
      }
    }
  }

  lemma FlagIsTurned(start: Netlist, net: Netlist, now: seq<seq<bool>>, arch: Arch, s: Ble, cell: nat, archType: nat,
      advice: Advice, opts: Options, members: seq<nat>, g: nat, t: nat)
    requires NetOk(start) && NetOk(net) && SameButTried(start, net) && net.IsGate(g) && g < |net.mapped|
      && !net.mapped[g]
    requires Picked(net, ScaleOf(net, s, advice, opts), opts.mode, archType, net.tried, now, members)
    requires g < |net.tried| && g < |now|
    requires t < |now[g]| && now[g][t] && (t < |net.tried[g]| ==> !net.tried[g][t])
    ensures Turned(start, arch, s, cell, advice, opts, g, t + 1)
  {
    hide Agree, ArityOk, Acyclic, ListsOk, Turned, SortedPreds, IsOffered, Untried, Displaces, Weighed;
    var sc := ScaleOf(net, s, advice, opts);
    var preds :| Considered(net, sc, opts.mode, archType, net.tried[g], now[g], Standing(sc, members), g, preds);
    WeighedIsTurned(start, net, arch, s, cell, advice, opts, archType, net.tried[g], now[g], Standing(sc, members), g,
      preds, t + 1);
  }

  lemma SizeIsTurned(start: Netlist, net: Netlist, now: seq<seq<bool>>, arch: Arch, s: Ble, cell: nat, archType: nat,
      advice: Advice, opts: Options, g: nat, t: nat)
    requires NetOk(start) && NetOk(net) && SameButTried(start, net) && net.IsGate(g) && g < |net.mapped|
      && !net.mapped[g]
    requires g < net.Size() && Known(start, now, arch, s, cell, advice, opts)
    requires Picked(net, ScaleOf(net, s, advice, opts), opts.mode, archType, net.tried, now, [])
    requires 1 <= t <= archType && t <= |SatPreds(start, opts.mode, g, |start.ins[g]|)| + 1
    ensures Turned(start, arch, s, cell, advice, opts, g, t)
  {
    hide Agree, ArityOk, Acyclic, ListsOk, Turned, IsOffered, Untried, Displaces, WeighedDown, SatPreds, TopoOrdered,
      Distinct;
    var sc := ScaleOf(net, s, advice, opts);
    var preds :| Considered(net, sc, opts.mode, archType, net.tried[g], now[g], Standing(sc, []), g, preds);
    SatPredsIgnoresTried(start, net, opts.mode, g, |start.ins[g]|);
    if now[g][t - 1] {
      assert Turned(start, arch, s, cell, advice, opts, g, t - 1 + 1);
    } else {
      WeighedIsTurned(start, net, arch, s, cell, advice, opts, archType, net.tried[g], now[g], Standing(sc, []), g,
        preds, t);
    }
  }

  /** The pattern the solver has just refused may be flagged. */
  lemma FailedKnown(start: Net, net: Net, arch: Arch, s: Ble, cell: nat, advice: Advice, opts: Options,
      members: seq<nat>,
      now: seq<seq<bool>>)
    requires NetOk(start) && NetOk(net) && SameButTried(start, net)
      && Known(start, net.tried, arch, s, cell, advice, opts)
    requires members != [] && IsOffered(net, opts.mode, members) && !Solvable(net, arch, s, members, cell, advice.find)
    requires var root := members[|members| - 1];
      && root < |net.tried| && |members| <= |net.tried[root]|
      && now == net.tried[root := net.tried[root][|members| - 1 := true]]
    ensures Known(start, now, arch, s, cell, advice, opts)
  {
    hide NetOk, Turned, Solvable, SameButTried, IsOffered;
    OneTurned(start, net, arch, s, cell, advice, opts, members);
  }

  lemma OkTried(a: Net, b: Net)
    requires NetOk(a) && SameButTried(a, b)
    ensures NetOk(b)
  {
    forall u: nat, v: nat | u < b.Size() && v < b.Size() ensures Count(b.outs[u], v) == Count(b.ins[v], u) {
      assert Count(a.outs[u], v) == Count(a.ins[v], u);
    }
  }

  /** The same, with the states before the choice, after it, and when the solver was asked. */
  lemma RefusedKnown(start: Net, net: Net, picked: Net, asked: Net, arch: Arch, s: Ble, cell: nat, advice: Advice,
      opts: Options, members: seq<nat>)
    requires NetOk(start) && NetOk(net) && SameButTried(start, net) && SameButTried(start, picked)
      && SameButTried(start, asked)
    requires Known(start, picked.tried, arch, s, cell, advice, opts)
    requires members != [] && IsOffered(net, opts.mode, members)
      && !Solvable(asked, arch, s, members, cell, advice.find)
    requires var root := members[|members| - 1];
      && root < |picked.tried| && |members| <= |picked.tried[root]|
      && asked.tried == picked.tried[root := picked.tried[root][|members| - 1 := true]]
    ensures Known(start, asked.tried, arch, s, cell, advice, opts)
  {
    hide NetOk, Known, Solvable, Offered, Agree, ArityOk;
    OkTried(start, picked);
    var preds :| Offered(net, opts.mode, members, preds);
    OfferedIgnoresTried(net, picked, opts.mode, members, preds);
    if Solvable(picked, arch, s, members, cell, advice.find) {
      SolvableTried(picked, asked, arch, s, members, cell, advice.find);
    }
    FailedKnown(start, picked, arch, s, cell, advice, opts, members, asked.tried);
  }

  ghost predicate Fresh(net: Net) {
    forall g: nat, t: nat :: net.IsGate(g) && g < |net.tried| && t < |net.tried[g]| ==> !net.tried[g][t]
  }

  lemma FreshKnows(net: Net, arch: Arch, s: Ble, cell: nat, advice: Advice, opts: Options)
    requires NetOk(net) && Fresh(net)
    ensures Known(net, net.tried, arch, s, cell, advice, opts)
  {
    hide Agree, ArityOk, Turned;
  }
}
