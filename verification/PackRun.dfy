/** What the network and all BLEs satisfy together while packing, and how committing one member of a
    pattern changes them (run_sat_solver, mark_lgknd_outputs_mapped). */
module PackRun {
  import opened Seqs
  import opened LogicNetwork
  import opened BufferEdits
  import opened NetworkPasses
  import opened BleState
  import opened SatSpec
  import opened BleLegality
  import opened BleOutputs
  import opened CombCounts
  import opened BleInputs
  import opened BleLegal

  // ----- mark_lgknd_outputs_mapped

  /** The first unmapped latch of the fan-out that leaves the BLE on an output. */
  function FirstServedLatch(net: Net, s: Ble, fan: seq<nat>): (r: Option<nat>)
    ensures r.Some? ==> r.value in fan && net.IsLatch(r.value) && OnOutput(s, r.value)
    ensures r.Some? && r.value < |net.mapped| ==> !net.mapped[r.value]
  {
    if fan == [] then None
    else if net.IsLatch(fan[0]) && fan[0] < |net.mapped| && !net.mapped[fan[0]] && OnOutput(s, fan[0]) then Some(fan[0])
    else FirstServedLatch(net, s, fan[1..])
  }

  /** The last unmapped latch of the fan-out. */
  function LastLatch(net: Net, fan: seq<nat>): (r: Option<nat>)
    ensures r.Some? ==> r.value in fan && net.IsLatch(r.value)
    ensures r.Some? && r.value < |net.mapped| ==> !net.mapped[r.value]
  {
    if fan == [] then None
    else
      var n := |fan| - 1;
      if net.IsLatch(fan[n]) && fan[n] < |net.mapped| && !net.mapped[fan[n]] then Some(fan[n])
      else LastLatch(net, fan[..n])
  }

  predicate HasBuf(net: Net, fan: seq<nat>) {
    exists i :: 0 <= i < |fan| && fan[i] < |net.kind| && net.kind[fan[i]] == Buf
  }

  function MarkLatch(net: Net, ble: nat, latch: nat): Net
    requires Shaped(net) && latch < net.Size()
  {
    net.(mapped := net.mapped[latch := true], bleOf := net.bleOf[latch := ble])
  }

  /** A new buffer before the latch, entered into the lists, with its flags allocated. */
  function BufferFlagged(net: Net, latch: nat): Net
    requires NetOk(net) && net.IsLatch(latch)
  {
    BufferLatchIs(net, latch);
    var r := BufferLatch(net, latch);
    r.(tried := r.tried[net.Size() := [false, false]])
  }

  /** mark_lgknd_outputs_mapped with add_buf set. */
  function MarkOutputs(net: Net, s: Ble, ble: nat, cur: nat): Net
    requires NetOk(net) && cur < net.Size()
  {
    var fan := net.outs[cur];
    var served := FirstServedLatch(net, s, fan);
    var last := LastLatch(net, fan);
    if served.Some? then FanoutInRange(net, cur, served.value); MarkLatch(net, ble, served.value)
    else if last.Some? && net.kind[cur] != Buf && !HasBuf(net, fan) then BufferFlagged(net, last.value)
    else net
  }

  lemma FanoutInRange(net: Net, cur: nat, n: nat)
    requires Shaped(net) && cur < net.Size() && n in net.outs[cur]
    ensures n < net.Size()
  {
  }

  function Placed(net: Net, ble: nat, cell: nat, cur: nat): Net
    requires Shaped(net) && cur < net.Size()
  {
    net.(mapped := net.mapped[cur := true], bleOf := net.bleOf[cur := ble], cellOf := net.cellOf[cur := cell])
  }

  lemma PlacedIsOk(net: Net, ble: nat, cell: nat, cur: nat)
    requires NetOk(net) && cur < net.Size()
    ensures NetOk(Placed(net, ble, cell, cur))
  {
    var r := Placed(net, ble, cell, cur);
    forall u: nat, v: nat | u < r.Size() && v < r.Size() ensures Count(r.outs[u], v) == Count(r.ins[v], u) {
      assert Count(net.outs[u], v) == Count(net.ins[v], u);
    }
  }

  /** The loop body of run_sat_solver after a success, for one member. */
  function CommitMember(net: Net, s: Ble, ble: nat, cell: nat, cur: nat): Net
    requires NetOk(net) && cur < net.Size()
  {
    PlacedIsOk(net, ble, cell, cur);
    MarkOutputs(Placed(net, ble, cell, cur), s, ble, cur)
  }

  // ----- progress

  /** Unmapped latches that a buffer does not drive. */
  ghost function OpenLatches(net: Net): set<nat> {
    set l: nat | l < net.Size() && OpenLatch(net, l)
  }

  ghost predicate OpenLatch(net: Net, l: nat) {
    net.IsLatch(l) && l < |net.mapped| && !net.mapped[l] && l < |net.ins| && |net.ins[l]| == 1
    && !(net.ins[l][0] < net.Size() && net.kind[net.ins[l][0]] == Buf)
  }

  ghost function OpenGates(net: Net): set<nat> {
    set n: nat | n < net.Size() && OpenGate(net, n)
  }

  ghost predicate OpenGate(net: Net, n: nat) {
    net.IsGate(n) && n < |net.mapped| && !net.mapped[n]
  }

  /** The measure of the packing loop: fewer open latches, or the same and fewer open gates. */
  ghost predicate Lower(before: Net, after: Net) {
    OpenLatches(after) < OpenLatches(before)
    || (OpenLatches(after) == OpenLatches(before) && OpenGates(after) < OpenGates(before))
  }

  ghost predicate KeepsMeaning(before: Net, after: Net) {
    NetOk(before) && NetOk(after) && SameMeaning(before, after)
  }

  // ----- two latches on one gate

  /** No gate has two latches in its fan-out. */
  ghost predicate OneLatch(net: Net)
    requires Shaped(net)
  {
    forall d: nat, i, j | d < net.Size() && net.kind[d] == Gate && 0 <= i < |net.outs[d]| && 0 <= j < |net.outs[d]|
      && i != j
      :: net.IsLatch(net.outs[d][i]) ==> !net.IsLatch(net.outs[d][j])
  }

  /** Gate d drives the unmapped latch l; flagged says whether d is mapped. */
  ghost predicate Drives(net: Net, d: nat, l: nat, flagged: bool) {
    && d < net.Size() && d < |net.mapped| && net.kind[d] == Gate && net.mapped[d] == flagged
    && net.IsLatch(l) && l < |net.mapped| && !net.mapped[l] && l < |net.ins| && net.ins[l] == [d]
  }

  /** Two latches of d of which one has been left behind, or will be when d is mapped. */
  ghost predicate Doomed(net: Net, d: nat, l: nat, m: nat) {
    l != m && (Drives(net, d, l, true) || Drives(net, d, m, true)
      || (Drives(net, d, l, false) && Drives(net, d, m, false)))
  }

  ghost predicate KeepsDoomed(before: Net, after: Net) {
    forall d: nat, l: nat, m: nat :: Doomed(before, d, l, m) ==> Doomed(after, d, l, m)
  }

  /** Mapping gate x touches at most one latch, and only one that x drives. */
  lemma TouchKeepsDoomed(net: Net, r: Net, x: nat, touched: Option<nat>)
    requires Shaped(net) && Shaped(r) && net.Size() <= r.Size() && net.IsGate(x) && !net.mapped[x] && r.mapped[x]
    requires touched.Some? ==> net.IsLatch(touched.value) && net.ins[touched.value] == [x]
    requires forall n: nat {:trigger r.kind[n]} :: n < net.Size() ==> r.kind[n] == net.kind[n]
    requires forall n: nat {:trigger r.mapped[n]} :: n < net.Size() && n != x && touched != Some(n) ==>
      r.mapped[n] == net.mapped[n]
    requires forall n: nat {:trigger r.ins[n]} :: n < net.Size() && touched != Some(n) ==> r.ins[n] == net.ins[n]
    ensures KeepsDoomed(net, r)
  {
    forall d: nat, l: nat, m: nat | Doomed(net, d, l, m) ensures Doomed(r, d, l, m) {
      TouchedDrives(net, r, x, touched, d, l);
      TouchedDrives(net, r, x, touched, d, m);
    }
  }

  lemma TouchedDrives(net: Net, r: Net, x: nat, touched: Option<nat>, d: nat, l: nat)
    requires Shaped(net) && Shaped(r) && net.Size() <= r.Size() && net.IsGate(x) && !net.mapped[x] && r.mapped[x]
    requires touched.Some? ==> net.IsLatch(touched.value) && net.ins[touched.value] == [x]
    requires forall n: nat {:trigger r.kind[n]} :: n < net.Size() ==> r.kind[n] == net.kind[n]
    requires forall n: nat {:trigger r.mapped[n]} :: n < net.Size() && n != x && touched != Some(n) ==>
      r.mapped[n] == net.mapped[n]
    requires forall n: nat {:trigger r.ins[n]} :: n < net.Size() && touched != Some(n) ==> r.ins[n] == net.ins[n]
    ensures Drives(net, d, l, true) ==> Drives(r, d, l, true)
    ensures Drives(net, d, l, false) && d != x ==> Drives(r, d, l, false)
    ensures Drives(net, d, l, false) && d == x && touched != Some(l) ==> Drives(r, d, l, true)
  {
    if net.IsLatch(l) && net.ins[l] == [d] && d != x {
      assert net.ins[l][0] == d;
      assert touched != Some(l);
    }
  }

  /** When everything is mapped at the end, no gate had two latches at the start. */
  lemma PackedHasOneLatch(start: Net, end: Net)
    requires NetOk(start) && KeepsDoomed(start, end)
    requires forall n: nat :: n < start.Size() && n < |start.mapped| ==> !start.mapped[n]
    requires forall n: nat :: n < end.Size() && n < |end.mapped| && end.IsLatch(n) ==> end.mapped[n]
    ensures OneLatch(start)
  {
    hide KeepsDoomed;
    forall d: nat, i, j | d < start.Size() && start.kind[d] == Gate && 0 <= i < |start.outs[d]|
      && 0 <= j < |start.outs[d]| && i != j
      && start.IsLatch(start.outs[d][i])
      ensures !start.IsLatch(start.outs[d][j])
    {
      if start.IsLatch(start.outs[d][j]) {
        TwoAreDoomed(start, d, i, j);
        NobodyDoomed(start, end, d, start.outs[d][i], start.outs[d][j]);
      }
    }
  }

  lemma NobodyDoomed(start: Net, end: Net, d: nat, l: nat, m: nat)
    requires KeepsDoomed(start, end)
    requires forall n: nat :: n < end.Size() && n < |end.mapped| && end.IsLatch(n) ==> end.mapped[n]
    ensures !Doomed(start, d, l, m)
  {
    assert !Doomed(end, d, l, m);
  }

  lemma TwoAreDoomed(net: Net, d: nat, i: nat, j: nat)
    requires NetOk(net) && d < net.Size() && net.kind[d] == Gate && i < |net.outs[d]| && j < |net.outs[d]| && i != j
    requires forall n: nat :: n < net.Size() && n < |net.mapped| ==> !net.mapped[n]
    requires net.IsLatch(net.outs[d][i]) && net.IsLatch(net.outs[d][j])
    ensures Doomed(net, d, net.outs[d][i], net.outs[d][j])
  {
    var l, m := net.outs[d][i], net.outs[d][j];
    EdgeBothWays(net, d, l);
    EdgeBothWays(net, d, m);
    assert net.ins[l] == [d] && net.ins[m] == [d];
    CountOne(d, d);
    assert Count(net.outs[d], l) == Count(net.ins[l], d);
    if l == m {
      CountOneTwice(net.outs[d], if i < j then i else j, if i < j then j else i);
    }
  }

  /** Gates have as many inputs as before; new ones have one. */
  ghost predicate KeepsPins(before: Net, after: Net) {
    forall n: nat :: after.IsGate(n) && n < |after.ins| ==>
      |after.ins[n]| == 1 || (before.IsGate(n) && n < |before.ins| && |after.ins[n]| == |before.ins[n]|)
  }

  lemma TouchKeepsPins(net: Net, r: Net, touched: Option<nat>)
    requires Shaped(net) && NetOk(r) && net.Size() <= r.Size() && (touched.Some? ==> net.IsLatch(touched.value))
    requires forall n: nat {:trigger r.kind[n]} :: n < net.Size() ==> r.kind[n] == net.kind[n]
    requires forall n: nat {:trigger r.kind[n]} :: net.Size() <= n < r.Size() ==> r.kind[n] == Buf
    requires forall n: nat {:trigger r.ins[n]} :: n < net.Size() && touched != Some(n) ==> r.ins[n] == net.ins[n]
    ensures KeepsPins(net, r)
  {
    hide Agree;
  }

  /** What is also true of every step: latches left behind stay behind, and gates keep their pins. */
  ghost predicate KeepsTrack(before: Net, after: Net) { KeepsDoomed(before, after) && KeepsPins(before, after) }

  lemma TrackTrans(a: Net, b: Net, c: Net)
    requires KeepsTrack(a, b) && KeepsTrack(b, c) && Shaped(b)
    ensures KeepsTrack(a, c)
  {
    hide Doomed;
  }

  /** The measure went down, every node of before still computes what it did, and a latch that is left
      behind stays so. */
  ghost predicate Progress(before: Net, after: Net) {
    KeepsMeaning(before, after) && Lower(before, after) && KeepsTrack(before, after)
  }

  lemma KeepsMeaningTrans(a: Net, b: Net, c: Net)
    requires KeepsMeaning(a, b) && KeepsMeaning(b, c)
    ensures KeepsMeaning(a, c)
  {
    hide NetOk, SameMeaning;
    SameMeaningTrans(a, b, c);
  }

  lemma ProgressTrans(a: Net, b: Net, c: Net)
    requires Progress(a, b) && (b == c || Progress(b, c))
    ensures Progress(a, c)
  {
    hide Lower, KeepsTrack, SameMeaning, Agree, ArityOk;
    if b != c {
      KeepsMeaningTrans(a, b, c);
      TrackTrans(a, b, c);
      LowerTrans(a, b, c);
    }
  }

  lemma LowerTrans(a: Net, b: Net, c: Net)
    requires Lower(a, b) && Lower(b, c)
    ensures Lower(a, c)
  {
    hide OpenLatches, OpenGates;
  }

  /** Flags differ, the graph does not. */
  predicate SameGraph(a: Net, b: Net) {
    a.kind == b.kind && a.ins == b.ins && a.outs == b.outs
  }

  lemma SameGraphRanked(a: Net, b: Net)
    requires Shaped(a) && Shaped(b) && SameGraph(a, b)
    ensures forall rk :: Ranked(a, rk) <==> Ranked(b, rk)
    ensures NetOk(a) ==> NetOk(b)
  {
    forall u: nat, v: nat | NetOk(a) && u < b.Size() && v < b.Size() ensures Count(b.outs[u], v) == Count(b.ins[v], u) {
      assert Count(a.outs[u], v) == Count(a.ins[v], u);
    }
  }

  /** Flags and lists have no say in what a node computes. */
  lemma SameGraphMeaning(a: Net, b: Net)
    requires NetOk(a) && Shaped(b) && SameGraph(a, b)
    ensures KeepsMeaning(a, b)
  {
    hide Val, Agree, ArityOk;
    SameGraphRanked(a, b);
    forall rk, rk', g: GateFun, env: nat -> bool, n: nat
      | Ranked(a, rk) && Ranked(b, rk') && n < a.Size() && b.kind[n] != Freed
      ensures Val(a, rk, g, env, n) == Val(b, rk', g, env, n)
      ensures Sampled(a, rk, g, env, n) == Sampled(b, rk', g, env, n)
    {
      SampledIgnoresLists(a, b, rk', g, env, n);
      SampledIgnoresRanking(a, rk, rk', g, env, n);
    }
  }

  /** Committing a member makes progress even when it creates a new gate. */
  lemma CommitProgress(net: Net, s: Ble, ble: nat, cell: nat, cur: nat)
    requires NetOk(net) && cur < net.Size() && net.IsGate(cur) && !net.mapped[cur]
    ensures Progress(net, CommitMember(net, s, ble, cell, cur))
  {
    hide NetOk, SameMeaning, OpenLatches, OpenGates, KeepsDoomed, KeepsPins;
    CommitMeaning(net, s, ble, cell, cur);
    CommitLower(net, s, ble, cell, cur);
    CommitDoomed(net, s, ble, cell, cur);
  }

  lemma CommitDoomed(net: Net, s: Ble, ble: nat, cell: nat, cur: nat)
    requires NetOk(net) && cur < net.Size() && net.IsGate(cur) && !net.mapped[cur]
    ensures KeepsTrack(net, CommitMember(net, s, ble, cell, cur))
  {
    hide Agree, FirstServedLatch, LastLatch, KeepsDoomed, KeepsPins, BufferFlagged;
    var p := Placed(net, ble, cell, cur);
    PlacedIsOk(net, ble, cell, cur);
    var r := CommitMember(net, s, ble, cell, cur);
    var fan := p.outs[cur];
    var served := FirstServedLatch(p, s, fan);
    var last := LastLatch(p, fan);
    if served.Some? {
      FanoutInRange(p, cur, served.value);
      OnlyDriver(net, cur, served.value);
      TouchKeepsDoomed(net, r, cur, served);
      SameGraphRanked(p, r);
      TouchKeepsPins(net, r, served);
    } else if last.Some? && p.kind[cur] != Buf && !HasBuf(p, fan) {
      FanoutInRange(p, cur, last.value);
      OnlyDriver(net, cur, last.value);
      FlaggedFields(p, last.value);
      TouchKeepsDoomed(net, r, cur, last);
      TouchKeepsPins(net, r, last);
    } else {
      TouchKeepsDoomed(net, r, cur, None);
      TouchKeepsPins(net, r, None);
    }
  }

  lemma OnlyDriver(net: Net, cur: nat, latch: nat)
    requires NetOk(net) && cur < net.Size() && latch in net.outs[cur] && net.IsLatch(latch)
    ensures net.ins[latch] == [cur]
  {
    EdgeBothWays(net, cur, latch);
  }

  lemma FlaggedFields(net: Net, latch: nat)
    requires NetOk(net) && net.IsLatch(latch)
    ensures var r := BufferFlagged(net, latch);
      && NetOk(r) && r.Size() == net.Size() + 1 && r.kind[net.Size()] == Buf
      && (forall n: nat {:trigger r.kind[n]} :: n < net.Size() ==> r.kind[n] == net.kind[n])
      && (forall n: nat {:trigger r.mapped[n]} :: n < net.Size() ==> r.mapped[n] == net.mapped[n])
      && (forall n: nat {:trigger r.ins[n]} :: n < net.Size() && n != latch ==> r.ins[n] == net.ins[n])
  {
    hide Agree;
    BufferLatchIs(net, latch);
    AddBufKeepsAgreement(net, latch, 0);
    SameGraphRanked(AddBuf(net, latch, 0), BufferFlagged(net, latch));
  }

  lemma CommitMeaning(net: Net, s: Ble, ble: nat, cell: nat, cur: nat)
    requires NetOk(net) && cur < net.Size() && net.IsGate(cur)
    ensures KeepsMeaning(net, CommitMember(net, s, ble, cell, cur))
  {
    hide SameMeaning, Agree, ArityOk, KeepsMeaning, FirstServedLatch, LastLatch;
    var p := Placed(net, ble, cell, cur);
    PlacedIsOk(net, ble, cell, cur);
    SameGraphMeaning(net, p);
    var fan := p.outs[cur];
    var served := FirstServedLatch(p, s, fan);
    var last := LastLatch(p, fan);
    if served.Some? {
      FanoutInRange(p, cur, served.value);
      SameGraphMeaning(net, MarkLatch(p, ble, served.value));
    } else if last.Some? && p.kind[cur] != Buf && !HasBuf(p, fan) {
      FanoutInRange(p, cur, last.value);
      BufferMeaning(p, last.value);
      KeepsMeaningTrans(net, p, BufferFlagged(p, last.value));
    }
  }

  lemma BufferMeaning(p: Net, latch: nat)
    requires NetOk(p) && p.IsLatch(latch)
    ensures KeepsMeaning(p, BufferFlagged(p, latch))
  {
    hide Agree, SameMeaning, Ranked;
    AddBufKeepsMeaning(p, latch, 0);
    BufferLatchIs(p, latch);
    var mid := AddBuf(p, latch, 0);
    SameGraphMeaning(mid, BufferFlagged(p, latch));
    KeepsMeaningTrans(p, mid, BufferFlagged(p, latch));
  }

  lemma CommitLower(net: Net, s: Ble, ble: nat, cell: nat, cur: nat)
    requires NetOk(net) && cur < net.Size() && net.IsGate(cur) && !net.mapped[cur]
    ensures Lower(net, CommitMember(net, s, ble, cell, cur))
  {
    var p := Placed(net, ble, cell, cur);
    PlacedIsOk(net, ble, cell, cur);
    var r := CommitMember(net, s, ble, cell, cur);
    PlacedProgress(net, ble, cell, cur);
    var fan := p.outs[cur];
    var served := FirstServedLatch(p, s, fan);
    var last := LastLatch(p, fan);
    if served.Some? {
      FanoutInRange(p, cur, served.value);
      MarkProgress(net, p, ble, served.value, cur);
    } else if last.Some? && p.kind[cur] != Buf && !HasBuf(p, fan) {
      BufferProgress(net, p, last.value, cur);
    }
  }

  lemma PlacedProgress(net: Net, ble: nat, cell: nat, cur: nat)
    requires NetOk(net) && cur < net.Size() && net.IsGate(cur) && !net.mapped[cur]
    ensures var p := Placed(net, ble, cell, cur);
      OpenLatches(p) == OpenLatches(net) && OpenGates(p) == OpenGates(net) - {cur} && cur in OpenGates(net)
      && Lower(net, p)
  {
    var p := Placed(net, ble, cell, cur);
    assert forall l: nat :: l < net.Size() ==> (OpenLatch(p, l) <==> OpenLatch(net, l));
    assert OpenGate(net, cur) && !OpenGate(p, cur);
  }

  lemma MarkProgress(net: Net, p: Net, ble: nat, latch: nat, cur: nat)
    requires Shaped(p) && Shaped(net) && latch < p.Size() && p.IsLatch(latch)
    requires OpenLatches(p) == OpenLatches(net) && OpenGates(p) == OpenGates(net) - {cur} && cur in OpenGates(net)
    ensures Lower(net, MarkLatch(p, ble, latch))
  {
    var r := MarkLatch(p, ble, latch);
    assert forall l: nat :: l < p.Size() && OpenLatch(r, l) ==> OpenLatch(p, l);
    assert forall n: nat :: n < p.Size() ==> (OpenGate(r, n) <==> OpenGate(p, n));
    assert OpenGates(r) == OpenGates(p);
    assert OpenLatches(r) <= OpenLatches(p);
  }

  lemma BufferProgress(net: Net, p: Net, latch: nat, cur: nat)
    requires NetOk(p) && Shaped(net) && latch < p.Size() && p.IsLatch(latch) && !p.mapped[latch]
    requires cur < p.Size() && latch in p.outs[cur] && p.kind[cur] != Buf
    requires OpenLatches(p) == OpenLatches(net)
    ensures Lower(net, BufferFlagged(p, latch))
  {
    BufferLatchIs(p, latch);
    EdgeBothWays(p, cur, latch);
    var r := BufferFlagged(p, latch);
    assert p.ins[latch][0] == cur;
    assert OpenLatch(p, latch) && latch in OpenLatches(p);
    forall l: nat | l < r.Size() && OpenLatch(r, l) ensures l < p.Size() && OpenLatch(p, l) && l != latch {
      assert r.kind[p.Size()] == Buf;
      if l != latch {
        assert l < p.Size();
        assert r.ins[l] == p.ins[l];
      }
    }
    assert OpenLatches(r) < OpenLatches(p);
  }
}
