/** Depths of the cells of a BLE by repeated relaxation over the connections still possible
    (dfs_ble_arch). */
module BleDepth {
  import opened Seqs
  import opened BleState
  import opened BleRecord
  import opened LocalDfs

  /** Every selected candidate exists. */
  ghost predicate MuxesOk(arch: Arch, s: Ble) {
    ArchOk(arch) && Fits(arch, s)
    && forall c, j :: 0 <= c < |arch.cells| && 0 <= j < |arch.cells[c]| && s.ports[c][j].used ==>
      0 <= s.ports[c][j].mux < |arch.cells[c][j]|
  }

  /** The cells among some candidates. */
  function CellsIn(cands: seq<PortRef>): seq<nat> {
    if cands == [] then []
    else
      var n := |cands| - 1;
      CellsIn(cands[..n]) + (if cands[n].BleNd? then [cands[n].cell] else [])
  }

  /** The candidates that count: the selected one of a used port, all of an unused one. */
  function Choices(arch: Arch, s: Ble, c: nat, j: nat): seq<PortRef>
    requires c < |arch.cells| && j < |arch.cells[c]| && c < |s.ports| && j < |s.ports[c]|
  {
    var p := s.ports[c][j];
    if p.used then if 0 <= p.mux < |arch.cells[c][j]| then [arch.cells[c][j][p.mux]] else [] else arch.cells[c][j]
  }

  /** The cells that may feed the first j ports of cell c. */
  function Feeds(arch: Arch, s: Ble, c: nat, j: nat): seq<nat>
    requires c < |arch.cells| && c < |s.ports| && j <= |arch.cells[c]| && j <= |s.ports[c]|
  {
    if j == 0 then [] else Feeds(arch, s, c, j - 1) + CellsIn(Choices(arch, s, c, j - 1))
  }

  /** A cell may feed another exactly if a used port of that one selects it, or an unused port could. */
  lemma {:induction false} FeedsExactly(arch: Arch, s: Ble, c: nat, j: nat, d: nat)
    requires c < |arch.cells| && c < |s.ports| && j <= |arch.cells[c]| && j <= |s.ports[c]|
    ensures d in Feeds(arch, s, c, j) <==>
      exists p: nat, k: nat ::
        p < j && k < |arch.cells[c][p]| && arch.cells[c][p][k] == BleNd(d)
        && (s.ports[c][p].used ==> s.ports[c][p].mux == k)
  {
    hide CellsIn;
    if j > 0 {
      FeedsExactly(arch, s, c, j - 1, d);
      CellsInExactly(Choices(arch, s, c, j - 1), d);
      var cands, slot := arch.cells[c][j - 1], s.ports[c][j - 1];
      if d in CellsIn(Choices(arch, s, c, j - 1)) {
        var k: nat :| k < |Choices(arch, s, c, j - 1)| && Choices(arch, s, c, j - 1)[k] == BleNd(d);
        assert cands[if slot.used then slot.mux else k] == BleNd(d);
      }
      if k: nat :| k < |cands| && cands[k] == BleNd(d) && (slot.used ==> slot.mux == k) {
        assert Choices(arch, s, c, j - 1)[if slot.used then 0 else k] == BleNd(d);
      }
    }
  }

  lemma {:induction false} CellsInExactly(cands: seq<PortRef>, d: nat)
    ensures d in CellsIn(cands) <==> exists k: nat :: k < |cands| && cands[k] == BleNd(d)
  {
    if cands != [] {
      var n := |cands| - 1;
      CellsInExactly(cands[..n], d);
      if k: nat :| k < |cands| && cands[k] == BleNd(d) {
        assert k < n ==> cands[..n][k] == BleNd(d);
      }
      if k: nat :| k < n && cands[..n][k] == BleNd(d) {
        assert cands[k] == BleNd(d);
      }
    }
  }

  function Feeders(arch: Arch, s: Ble): (r: seq<seq<nat>>)
    requires |s.ports| == |arch.cells| && forall c :: 0 <= c < |arch.cells| ==> |s.ports[c]| == |arch.cells[c]|
    ensures |r| == |arch.cells| && forall c :: 0 <= c < |r| ==> r[c] == Feeds(arch, s, c, |arch.cells[c]|)
  {
    seq(|arch.cells|, c requires 0 <= c < |arch.cells| => Feeds(arch, s, c, |arch.cells[c]|))
  }

  /** The cells themselves, by number. */
  function AllCells(arch: Arch): (r: seq<nat>)
    ensures |r| == |arch.cells| && forall c :: 0 <= c < |r| ==> r[c] == c
  {
    seq(|arch.cells|, c => c)
  }

  ghost predicate AtLeast(cur: seq<nat>, i: nat, from: seq<nat>)
    requires i < |cur|
  {
    forall k {:trigger from[k]} :: 0 <= k < |from| && from[k] < |cur| ==> cur[from[k]] + 1 <= cur[i]
  }

  lemma AtLeastAppend(cur: seq<nat>, i: nat, a: seq<nat>, b: seq<nat>)
    requires i < |cur| && AtLeast(cur, i, a) && AtLeast(cur, i, b)
    ensures AtLeast(cur, i, a + b)
  {
  }

  /** One candidate looked at. */
  method RelaxVia(cur: array<nat>, dfsed: array<bool>, im: nat, r: PortRef, ghost before: seq<nat>)
    requires cur.Length == dfsed.Length && im < cur.Length && (r.BleNd? ==> r.cell < cur.Length)
    requires dfsed[im] <==> cur[..] != before
    modifies cur, dfsed
    ensures dfsed[..] == old(dfsed[..])[im := dfsed[im]] && (old(dfsed[im]) ==> dfsed[im])
    ensures dfsed[im] <==> cur[..] != before
    ensures cur[..] == old(cur[..])
      || (!old(dfsed[im]) && r.BleNd? && old(cur[im]) < old(cur[r.cell]) + 1
        && cur[..] == old(cur[..])[im := old(cur[r.cell]) + 1])
    ensures !dfsed[im] ==> cur[..] == old(cur[..]) && (r.BleNd? ==> cur[r.cell] + 1 <= cur[im])
  {
    if r.BleNd? && cur[im] < cur[r.cell] + 1 && !dfsed[im] {
      ghost var was := cur[..];
      cur[im] := cur[r.cell] + 1;
      dfsed[im] := true;
      assert cur[..] == was[im := was[r.cell] + 1];
      assert cur[..][im] != was[im];
    }
  }

  /** All candidates of a list that counts for the cell. */
  method RelaxList(cands: seq<PortRef>, cur: array<nat>, dfsed: array<bool>, im: nat, ghost ins: seq<seq<nat>>,
      ghost before: seq<nat>)
    requires cur.Length == dfsed.Length == |ins| == |before| && im < cur.Length
    requires forall k :: 0 <= k < |cands| && cands[k].BleNd? ==> cands[k].cell < cur.Length && cands[k].cell in ins[im]
    requires dfsed[im] <==> cur[..] != before
    requires Relaxed(ins, seq(|ins|, c => c), before, cur[..], im)
    modifies cur, dfsed
    ensures dfsed[..] == old(dfsed[..])[im := dfsed[im]] && (old(dfsed[im]) ==> dfsed[im])
    ensures dfsed[im] <==> cur[..] != before
    ensures Relaxed(ins, seq(|ins|, c => c), before, cur[..], im)
    ensures !dfsed[im] ==> AtLeast(before, im, CellsIn(cands))
  {
    ghost var ids := seq(|ins|, c => c);
    for k := 0 to |cands|
      invariant dfsed[..] == old(dfsed[..])[im := dfsed[im]] && (old(dfsed[im]) ==> dfsed[im])
      invariant dfsed[im] <==> cur[..] != before
      invariant Relaxed(ins, ids, before, cur[..], im)
      invariant !dfsed[im] ==> AtLeast(before, im, CellsIn(cands[..k]))
    {
      assert cands[..k + 1][..k] == cands[..k];
      assert cands[k].BleNd? ==> Edge(ins, ids, cands[k].cell, im);
      RelaxVia(cur, dfsed, im, cands[k], before);
    }
    assert cands[..|cands|] == cands;
  }

  lemma ChoicesKnown(arch: Arch, s: Ble, c: nat, j: nat, k: nat)
    requires MuxesOk(arch, s) && c < |arch.cells| && j < |arch.cells[c]| && k < |Choices(arch, s, c, j)|
      && Choices(arch, s, c, j)[k].BleNd?
    ensures Choices(arch, s, c, j)[k].cell < |arch.cells|
      && Choices(arch, s, c, j)[k].cell in Feeds(arch, s, c, |arch.cells[c]|)
  {
    var r := Choices(arch, s, c, j)[k];
    CellListed(Choices(arch, s, c, j), k);
    FeedsGrow(arch, s, c, j + 1, |arch.cells[c]|);
    assert arch.RefOk(r);
  }

  lemma {:induction false} CellListed(cands: seq<PortRef>, k: nat)
    requires k < |cands| && cands[k].BleNd?
    ensures cands[k].cell in CellsIn(cands)
  {
    if k < |cands| - 1 {
      CellListed(cands[..|cands| - 1], k);
    }
  }

  lemma {:induction false} FeedsGrow(arch: Arch, s: Ble, c: nat, j: nat, n: nat)
    requires c < |arch.cells| && c < |s.ports| && j <= n <= |arch.cells[c]| && n <= |s.ports[c]|
    ensures forall x :: x in Feeds(arch, s, c, j) ==> x in Feeds(arch, s, c, n)
  {
    if j < n {
      FeedsGrow(arch, s, c, j, n - 1);
    }
  }

  /** One cell: at most one raise in a round. */
  method RelaxCell(arch: Arch, ble: BleInfo, cur: array<nat>, dfsed: array<bool>, im: nat)
    requires MuxesOk(arch, ble.State()) && cur.Length == dfsed.Length == |arch.cells| && im < cur.Length && !dfsed[im]
    modifies cur, dfsed
    ensures ble.State() == old(ble.State())
    ensures Relaxed(Feeders(arch, ble.State()), AllCells(arch), old(cur[..]), cur[..], im)
    ensures cur[..] == old(cur[..]) ==> SettledAt(Feeders(arch, ble.State()), AllCells(arch), cur[..], im)
    ensures dfsed[..] == old(dfsed[..])[im := true]
  {
    hide ArchOk, CellsIn;
    ghost var s, before := ble.State(), cur[..];
    ghost var ins := Feeders(arch, s);
    assert AllCells(arch) == seq(|ins|, c => c);
    for ip := 0 to |arch.cells[im]|
      invariant ble.State() == s && dfsed[..] == old(dfsed[..])[im := dfsed[im]]
      invariant dfsed[im] <==> cur[..] != before
      invariant Relaxed(ins, seq(|ins|, c => c), before, cur[..], im)
      invariant !dfsed[im] ==> AtLeast(before, im, Feeds(arch, s, im, ip))
    {
      PortInRange(arch, s, im, ip);
      forall k: nat | k < |Choices(arch, s, im, ip)| && Choices(arch, s, im, ip)[k].BleNd?
        ensures Choices(arch, s, im, ip)[k].cell < |arch.cells| && Choices(arch, s, im, ip)[k].cell in ins[im]
      {
        ChoicesKnown(arch, s, im, ip, k);
      }
      assert s.ports[im][ip] == ble.ports[im][ip];
      if ble.ports[im][ip].used {
        var mux := ble.ports[im][ip].mux;
        assert [arch.cells[im][ip][mux]] == Choices(arch, s, im, ip);
        RelaxList([arch.cells[im][ip][mux]], cur, dfsed, im, ins, before);
      } else {
        assert arch.cells[im][ip] == Choices(arch, s, im, ip);
        RelaxList(arch.cells[im][ip], cur, dfsed, im, ins, before);
      }
      if !dfsed[im] {
        AtLeastAppend(before, im, Feeds(arch, s, im, ip), CellsIn(Choices(arch, s, im, ip)));
      }
    }
    if !dfsed[im] {
      CellSettled(arch, s, before, im);
    }
    dfsed[im] := true;
  }

  lemma PortInRange(arch: Arch, s: Ble, c: nat, j: nat)
    requires MuxesOk(arch, s) && c < |arch.cells| && j < |arch.cells[c]|
    ensures Fits(arch, s) && (s.ports[c][j].used ==> 0 <= s.ports[c][j].mux < |arch.cells[c][j]|)
  {
  }

  lemma CellSettled(arch: Arch, s: Ble, cur: seq<nat>, im: nat)
    requires Fits(arch, s) && |cur| == |arch.cells| && im < |cur|
      && AtLeast(cur, im, Feeds(arch, s, im, |arch.cells[im]|))
    ensures SettledAt(Feeders(arch, s), AllCells(arch), cur, im)
  {
    forall d: nat | Edge(Feeders(arch, s), AllCells(arch), d, im) ensures cur[d] + 1 <= cur[im] {
      var k :| 0 <= k < |Feeds(arch, s, im, |arch.cells[im]|)| && Feeds(arch, s, im, |arch.cells[im]|)[k] == d;
    }
  }

  method CellRound(arch: Arch, ble: BleInfo, cur: array<nat>, dfsed: array<bool>, ghost rk: seq<nat>)
    requires MuxesOk(arch, ble.State()) && cur.Length == dfsed.Length == |arch.cells|
    requires forall k :: 0 <= k < dfsed.Length ==> !dfsed[k]
    requires Bounded(Feeders(arch, ble.State()), AllCells(arch), rk) && Below(cur[..], rk)
    requires Reached(Feeders(arch, ble.State()), AllCells(arch), cur[..])
    modifies cur, dfsed
    ensures ble.State() == old(ble.State())
    ensures Below(cur[..], rk) && Reached(Feeders(arch, ble.State()), AllCells(arch), cur[..])
    ensures if cur[..] == old(cur[..]) then Settled(Feeders(arch, ble.State()), AllCells(arch), cur[..])
      else Total(cur[..]) > Total(old(cur[..]))
  {
    hide Reached, Below, Total, ArchOk, Feeders, AllCells, Bounded;
    ghost var s := ble.State();
    ghost var ins, ns := Feeders(arch, s), AllCells(arch);
    for im := 0 to cur.Length
      invariant ble.State() == s
      invariant forall k :: im <= k < dfsed.Length ==> !dfsed[k]
      invariant Below(cur[..], rk) && Reached(ins, ns, cur[..])
      invariant Total(cur[..]) >= Total(old(cur[..]))
      invariant cur[..] != old(cur[..]) ==> Total(cur[..]) > Total(old(cur[..]))
      invariant cur[..] == old(cur[..]) ==> forall i: nat :: i < im ==> SettledAt(ins, ns, cur[..], i)
    {
      ghost var before := cur[..];
      RelaxCell(arch, ble, cur, dfsed, im);
      RelaxedFacts(ins, ns, rk, before, cur[..], im);
    }
    if cur[..] == old(cur[..]) {
      forall d: nat, i: nat | Edge(ins, ns, d, i) ensures cur[..][d] + 1 <= cur[..][i] {
        assert SettledAt(ins, ns, cur[..], i);
      }
    }
  }

  lemma ZerosBelow(ins: seq<seq<nat>>, nodes: seq<nat>, depth: seq<nat>, rk: seq<nat>)
    requires Bounded(ins, nodes, rk) && |depth| == |nodes| && forall i :: 0 <= i < |depth| ==> depth[i] == 0
    ensures Below(depth, rk)
  {
  }

  /** dfs_ble_arch: it ends, and each cell's depth is the length of the longest chain of cells that can
      still feed it: through the selected candidate of a used port, through any of an unused one. */
  method DfsBleArch(arch: Arch, ble: BleInfo, ghost rk: seq<nat>) returns (depth: array<nat>)
    requires MuxesOk(arch, ble.State()) && Bounded(Feeders(arch, ble.State()), AllCells(arch), rk)
    ensures fresh(depth) && depth.Length == |arch.cells| && ble.State() == old(ble.State())
    ensures forall c: nat :: c < depth.Length ==> Longest(Feeders(arch, ble.State()), AllCells(arch), c, depth[c])
  {
    hide Total, ArchOk, Feeders, AllCells, Bounded, Longest, Reached, Settled, Below;
    var n := |arch.cells|;
    ghost var s := ble.State();
    ghost var ins, ns := Feeders(arch, s), AllCells(arch);
    depth := new nat[n](i => 0);
    var pre := new nat[n](i => 0);
    var dfsed := new bool[n](i => false);
    NothingReachedYet(ins, ns, depth[..]);
    ZerosBelow(ins, ns, depth[..], rk);
    while true
      invariant depth.Length == n && pre.Length == n && dfsed.Length == n && ble.State() == s
      invariant fresh(depth) && fresh(pre) && fresh(dfsed) && depth != pre
      invariant pre[..] == depth[..] && forall k :: 0 <= k < n ==> !dfsed[k]
      invariant Below(depth[..], rk) && Reached(ins, ns, depth[..])
      decreases Total(rk) - Total(depth[..])
    {
      ghost var before := depth[..];
      CellRound(arch, ble, depth, dfsed, rk);
      assert pre[..] == before;
      TotalBelow(depth[..], rk);
      var same := SameDepths(pre, depth);
      if same {
        SettledIsLongest(ins, ns, depth[..]);
        break;
      }
      ghost var now := depth[..];
      for im := 0 to n
        invariant depth[..] == now && ble.State() == s
        invariant forall k :: 0 <= k < im ==> pre[k] == depth[k] && !dfsed[k]
      {
        pre[im] := depth[im];
        dfsed[im] := false;
      }
      assert pre[..] == depth[..];
    }
  }
}
