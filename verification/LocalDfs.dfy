/** The local depth-first ordering of pattern members: repeated relaxation to a fixpoint, then a
    bubble sort by depth (local_dfs_lgknds, bubble_sort_depth_lgk_dfsnds). */
module LocalDfs {
  import opened Seqs

  /** The member at position d drives the member at position i. */
  predicate Edge(ins: seq<seq<nat>>, nodes: seq<nat>, d: nat, i: nat) {
    d < |nodes| && i < |nodes| && nodes[i] < |ins| && nodes[d] in ins[nodes[i]]
  }

  /** A chain of members, each driving the next, that ends at position i. */
  ghost predicate Chain(ins: seq<seq<nat>>, nodes: seq<nat>, p: seq<nat>, i: nat) {
    && p != [] && p[|p| - 1] == i && i < |nodes|
    && (forall k :: 0 <= k < |p| - 1 ==> Edge(ins, nodes, p[k], p[k + 1]))
  }

  /** d is the number of edges on the longest chain that ends at position i. */
  ghost predicate Longest(ins: seq<seq<nat>>, nodes: seq<nat>, i: nat, d: nat) {
    && (exists p :: Chain(ins, nodes, p, i) && |p| == d + 1)
    && (forall p :: Chain(ins, nodes, p, i) ==> |p| <= d + 1)
  }

  ghost predicate Reached(ins: seq<seq<nat>>, nodes: seq<nat>, depth: seq<nat>) {
    |depth| == |nodes| && forall i: nat {:trigger depth[i]} :: i < |nodes| ==> ReachedAt(ins, nodes, i, depth[i])
  }

  ghost predicate ReachedAt(ins: seq<seq<nat>>, nodes: seq<nat>, i: nat, d: nat) {
    exists p :: Chain(ins, nodes, p, i) && |p| == d + 1
  }

  /** No edge can raise a depth any more. */
  ghost predicate Settled(ins: seq<seq<nat>>, nodes: seq<nat>, depth: seq<nat>) {
    |depth| == |nodes| && forall d: nat, i: nat :: Edge(ins, nodes, d, i) ==> depth[d] + 1 <= depth[i]
  }

  /** Ranks bound the depths: the members form no cycle. */
  ghost predicate Bounded(ins: seq<seq<nat>>, nodes: seq<nat>, rk: seq<nat>) {
    |rk| == |nodes| && forall d: nat, i: nat :: Edge(ins, nodes, d, i) ==> rk[d] < rk[i]
  }

  ghost predicate Below(depth: seq<nat>, rk: seq<nat>) {
    |depth| == |rk| && forall i :: 0 <= i < |rk| ==> depth[i] <= rk[i]
  }

  lemma {:induction false} SettledBoundsChains(ins: seq<seq<nat>>, nodes: seq<nat>, depth: seq<nat>, p: seq<nat>,
      i: nat)
    requires Settled(ins, nodes, depth) && Chain(ins, nodes, p, i)
    ensures |p| <= depth[i] + 1
  {
    if |p| > 1 {
      var q := p[..|p| - 1];
      var d := q[|q| - 1];
      assert Edge(ins, nodes, d, i);
      SettledBoundsChains(ins, nodes, depth, q, d);
    }
  }

  /** A settled assignment whose every value is reached by a chain is the longest-chain length. */
  lemma SettledIsLongest(ins: seq<seq<nat>>, nodes: seq<nat>, depth: seq<nat>)
    requires Settled(ins, nodes, depth) && Reached(ins, nodes, depth)
    ensures forall i: nat :: i < |nodes| ==> Longest(ins, nodes, i, depth[i])
  {
    forall i: nat | i < |nodes| ensures Longest(ins, nodes, i, depth[i]) {
      assert ReachedAt(ins, nodes, i, depth[i]);
      forall p | Chain(ins, nodes, p, i) ensures |p| <= depth[i] + 1 {
        SettledBoundsChains(ins, nodes, depth, p, i);
      }
    }
  }

  lemma NothingReachedYet(ins: seq<seq<nat>>, nodes: seq<nat>, depth: seq<nat>)
    requires |depth| == |nodes| && forall i :: 0 <= i < |depth| ==> depth[i] == 0
    ensures Reached(ins, nodes, depth)
  {
    forall i: nat | i < |nodes| ensures ReachedAt(ins, nodes, i, depth[i]) {
      assert Chain(ins, nodes, [i], i);
    }
  }

  lemma ReachFurther(ins: seq<seq<nat>>, nodes: seq<nat>, depth: seq<nat>, d: nat, i: nat)
    requires Reached(ins, nodes, depth) && Edge(ins, nodes, d, i)
    ensures Reached(ins, nodes, depth[i := depth[d] + 1])
  {
    var depth' := depth[i := depth[d] + 1];
    forall k: nat | k < |nodes| ensures ReachedAt(ins, nodes, k, depth'[k]) {
      assert ReachedAt(ins, nodes, k, depth[k]);
      if k == i {
        assert ReachedAt(ins, nodes, d, depth[d]);
        var p :| Chain(ins, nodes, p, d) && |p| == depth[d] + 1;
        assert Chain(ins, nodes, p + [i], i);
      }
    }
  }

  function Total(s: seq<nat>): nat {
    if s == [] then 0 else s[0] + Total(s[1..])
  }

  lemma {:induction false} TotalUpdate(s: seq<nat>, i: nat, v: nat)
    requires i < |s|
    ensures Total(s[i := v]) + s[i] == Total(s) + v
  {
    if i == 0 {
      assert s[0 := v][1..] == s[1..];
    } else {
      assert s[i := v][1..] == s[1..][i - 1 := v];
      TotalUpdate(s[1..], i - 1, v);
    }
  }

  lemma {:induction false} TotalBelow(s: seq<nat>, t: seq<nat>)
    requires Below(s, t)
    ensures Total(s) <= Total(t)
  {
    if s != [] {
      TotalBelow(s[1..], t[1..]);
    }
  }

  /** What one visit of position i does to the depths: nothing, or one raise along an edge. */
  ghost predicate Relaxed(ins: seq<seq<nat>>, nodes: seq<nat>, before: seq<nat>, after: seq<nat>, i: nat) {
    after == before
    || (exists d: nat ::
          Edge(ins, nodes, d, i) && |before| == |nodes| && before[i] < before[d] + 1
          && after == before[i := before[d] + 1])
  }

  ghost predicate SettledAt(ins: seq<seq<nat>>, nodes: seq<nat>, depth: seq<nat>, i: nat)
    requires |depth| == |nodes|
  {
    forall d: nat :: Edge(ins, nodes, d, i) ==> depth[d] + 1 <= depth[i]
  }

  lemma RelaxedFacts(ins: seq<seq<nat>>, nodes: seq<nat>, rk: seq<nat>, before: seq<nat>, after: seq<nat>, i: nat)
    requires Relaxed(ins, nodes, before, after, i) && Reached(ins, nodes, before)
    requires Bounded(ins, nodes, rk) && Below(before, rk)
    ensures Reached(ins, nodes, after) && Below(after, rk)
    ensures Total(after) >= Total(before) && (after != before ==> Total(after) > Total(before))
  {
    hide Reached, Total;
    if after != before {
      var d: nat :| Edge(ins, nodes, d, i) && before[i] < before[d] + 1 && after == before[i := before[d] + 1];
      ReachFurther(ins, nodes, before, d, i);
      TotalUpdate(before, i, before[d] + 1);
    }
  }

  /** One position: at most one raise, because of the dfsed flag. */
  method RelaxOne(ins: seq<seq<nat>>, nodes: array<nat>, cur: array<nat>, dfsed: array<bool>, ind: nat)
    requires cur != nodes && nodes.Length == cur.Length == dfsed.Length && ind < nodes.Length
    requires forall k :: 0 <= k < nodes.Length ==> nodes[k] < |ins|
    requires !dfsed[ind]
    modifies cur, dfsed
    ensures Relaxed(ins, nodes[..], old(cur[..]), cur[..], ind)
    ensures cur[..] == old(cur[..]) ==> SettledAt(ins, nodes[..], cur[..], ind)
    ensures dfsed[..] == old(dfsed[..])[ind := true]
  {
    ghost var ns := nodes[..];
    var pins := ins[nodes[ind]];
    for im := 0 to |pins|
      invariant nodes[..] == ns
      invariant dfsed[..] == old(dfsed[..])[ind := dfsed[ind]]
      invariant Relaxed(ins, ns, old(cur[..]), cur[..], ind)
      invariant dfsed[ind] <==> cur[..] != old(cur[..])
      invariant !dfsed[ind] ==> forall k, d: nat :: 0 <= k < im && d < |ns| && ns[d] == pins[k] ==>
        cur[d] + 1 <= cur[ind]
    {
      for id := 0 to nodes.Length
        invariant nodes[..] == ns
        invariant dfsed[..] == old(dfsed[..])[ind := dfsed[ind]]
        invariant Relaxed(ins, ns, old(cur[..]), cur[..], ind)
        invariant dfsed[ind] <==> cur[..] != old(cur[..])
        invariant !dfsed[ind] ==> forall k, d: nat :: 0 <= k < im && d < |ns| && ns[d] == pins[k] ==>
          cur[d] + 1 <= cur[ind]
        invariant !dfsed[ind] ==> forall d: nat :: d < id && ns[d] == pins[im] ==> cur[d] + 1 <= cur[ind]
      {
        if pins[im] == nodes[id] && !dfsed[ind] {
          if cur[ind] < cur[id] + 1 {
            assert Edge(ins, ns, id, ind);
            ghost var before := cur[..];
            cur[ind] := cur[id] + 1;
            assert cur[..] == before[ind := before[id] + 1];
            dfsed[ind] := true;
          }
        }
      }
    }
    dfsed[ind] := true;
  }

  /** One round over all positions. */
  method Round(ins: seq<seq<nat>>, nodes: array<nat>, cur: array<nat>, dfsed: array<bool>, ghost rk: seq<nat>)
    requires cur != nodes && nodes.Length == cur.Length == dfsed.Length
    requires forall k :: 0 <= k < nodes.Length ==> nodes[k] < |ins|
    requires forall k :: 0 <= k < dfsed.Length ==> !dfsed[k]
    requires Bounded(ins, nodes[..], rk) && Below(cur[..], rk) && Reached(ins, nodes[..], cur[..])
    modifies cur, dfsed
    ensures Below(cur[..], rk) && Reached(ins, nodes[..], cur[..])
    ensures if cur[..] == old(cur[..]) then Settled(ins, nodes[..], cur[..]) else Total(cur[..]) > Total(old(cur[..]))
  {
    hide Reached, Below, Total;
    ghost var ns := nodes[..];
    for ind := 0 to nodes.Length
      invariant nodes[..] == ns
      invariant forall k :: ind <= k < dfsed.Length ==> !dfsed[k]
      invariant Below(cur[..], rk) && Reached(ins, ns, cur[..])
      invariant Total(cur[..]) >= Total(old(cur[..]))
      invariant cur[..] != old(cur[..]) ==> Total(cur[..]) > Total(old(cur[..]))
      invariant cur[..] == old(cur[..]) ==> forall i: nat :: i < ind ==> SettledAt(ins, ns, cur[..], i)
    {
      ghost var before := cur[..];
      RelaxOne(ins, nodes, cur, dfsed, ind);
      RelaxedFacts(ins, ns, rk, before, cur[..], ind);
    }
    if cur[..] == old(cur[..]) {
      forall d: nat, i: nat | Edge(ins, ns, d, i) ensures cur[..][d] + 1 <= cur[..][i] {
        assert SettledAt(ins, ns, cur[..], i);
      }
    }
  }

  method SameDepths(pre: array<nat>, cur: array<nat>) returns (same: bool)
    requires pre.Length == cur.Length
    ensures same <==> pre[..] == cur[..]
  {
    var preMatch := 0;
    for im := 0 to cur.Length
      invariant 0 <= preMatch <= im
      invariant preMatch == im <==> pre[..im] == cur[..im]
    {
      assert pre[..im + 1] == pre[..im] + [pre[im]] && cur[..im + 1] == cur[..im] + [cur[im]];
      if pre[im] == cur[im] {
        preMatch := preMatch + 1;
      }
    }
    assert pre[..cur.Length] == pre[..] && cur[..cur.Length] == cur[..];
    same := preMatch == cur.Length;
  }

  /** The relaxation loop of local_dfs_lgknds: it ends, and with the longest-chain lengths. */
  method Depths(ins: seq<seq<nat>>, nodes: array<nat>, ghost rk: seq<nat>) returns (cur: array<nat>)
    requires forall k :: 0 <= k < nodes.Length ==> nodes[k] < |ins|
    requires Bounded(ins, nodes[..], rk)
    ensures fresh(cur) && cur.Length == nodes.Length
    ensures forall i: nat :: i < nodes.Length ==> Longest(ins, nodes[..], i, cur[i])
    ensures Settled(ins, nodes[..], cur[..])
  {
    hide Total, Longest, Reached, Settled, Edge;
    var n := nodes.Length;
    ghost var ns := nodes[..];
    cur := new nat[n](i => 0);
    var pre := new nat[n](i => 0);
    var dfsed := new bool[n](i => false);
    NothingReachedYet(ins, ns, cur[..]);
    while true
      invariant cur.Length == n && pre.Length == n && dfsed.Length == n && nodes[..] == ns
      invariant fresh(cur) && fresh(pre) && fresh(dfsed) && cur != pre
      invariant pre[..] == cur[..] && forall k :: 0 <= k < n ==> !dfsed[k]
      invariant Below(cur[..], rk) && Reached(ins, ns, cur[..])
      decreases Total(rk) - Total(cur[..])
    {
      ghost var before := cur[..];
      Round(ins, nodes, cur, dfsed, rk);
      assert pre[..] == before;
      TotalBelow(cur[..], rk);
      var same := SameDepths(pre, cur);
      if same {
        SettledIsLongest(ins, ns, cur[..]);
        break;
      }
      ghost var now := cur[..];
      for im := 0 to n
        invariant nodes[..] == ns && cur[..] == now
        invariant forall k :: 0 <= k < im ==> pre[k] == cur[k] && !dfsed[k]
      {
        pre[im] := cur[im];
        dfsed[im] := false;
      }
      assert pre[..] == cur[..];
    }
  }

  // ----- the sort

  /** perm lists every position once. */
  ghost predicate Permutes(perm: seq<nat>, n: nat) {
    |perm| == n && Distinct(perm) && forall k :: 0 <= k < n ==> perm[k] < n
  }

  /** The (node, depth) pairs now are the pairs before, rearranged by perm. */
  ghost predicate Rearranged(ns: seq<nat>, ds: seq<nat>, ns': seq<nat>, ds': seq<nat>, perm: seq<nat>) {
    && |ns| == |ds| == |ns'| == |ds'| && Permutes(perm, |ns|)
    && forall k :: 0 <= k < |ns| ==> ns'[k] == ns[perm[k]] && ds'[k] == ds[perm[k]]
  }

  ghost predicate Ascending(s: seq<nat>) {
    forall j, k :: 0 <= j < k < |s| ==> s[j] <= s[k]
  }

  lemma SwapRearranges(ns: seq<nat>, ds: seq<nat>, ns1: seq<nat>, ds1: seq<nat>, perm: seq<nat>, j: nat)
      returns (perm2: seq<nat>)
    requires Rearranged(ns, ds, ns1, ds1, perm) && j + 1 < |ns|
    ensures Rearranged(ns, ds, ns1[j := ns1[j + 1]][j + 1 := ns1[j]], ds1[j := ds1[j + 1]][j + 1 := ds1[j]], perm2)
  {
    perm2 := perm[j := perm[j + 1]][j + 1 := perm[j]];
  }

  method SwapAt(nodes: array<nat>, depths: array<nat>, j: nat)
    requires nodes != depths && nodes.Length == depths.Length && j + 1 < nodes.Length
    modifies nodes, depths
    ensures nodes[..] == old(nodes[..])[j := old(nodes[j + 1])][j + 1 := old(nodes[j])]
    ensures depths[..] == old(depths[..])[j := old(depths[j + 1])][j + 1 := old(depths[j])]
  {
    var tmp, tmpNode := depths[j], nodes[j];
    depths[j] := depths[j + 1];
    nodes[j] := nodes[j + 1];
    depths[j + 1] := tmp;
    nodes[j + 1] := tmpNode;
  }

  /** One pass: a largest depth among the first i reaches position i - 1. Weights never move. */
  method BubblePass(nodes: array<nat>, depths: array<nat>, weights: seq<real>, i: nat,
                    ghost ns: seq<nat>, ghost ds: seq<nat>, ghost perm0: seq<nat>) returns (ghost perm: seq<nat>)
    requires nodes != depths && nodes.Length == depths.Length == |weights| && 0 < i <= nodes.Length
    requires Rearranged(ns, ds, nodes[..], depths[..], perm0)
    requires forall j, k :: 0 <= j < k < depths.Length && k >= i ==> depths[j] <= depths[k]
    modifies nodes, depths
    ensures Rearranged(ns, ds, nodes[..], depths[..], perm)
    ensures forall j, k :: 0 <= j < k < depths.Length && k >= i - 1 ==> depths[j] <= depths[k]
  {
    perm := perm0;
    for j := 0 to i - 1
      invariant Rearranged(ns, ds, nodes[..], depths[..], perm)
      invariant forall l, k :: 0 <= l < k < depths.Length && k >= i ==> depths[l] <= depths[k]
      invariant forall l :: 0 <= l < j ==> depths[l] <= depths[j]
    {
      if depths[j] > depths[j + 1] || (depths[j] == depths[j + 1] && weights[j] > weights[j + 1]) {
        perm := SwapRearranges(ns, ds, nodes[..], depths[..], perm, j);
        SwapAt(nodes, depths, j);
      }
    }
  }

  method BubbleSort(nodes: array<nat>, depths: array<nat>, weights: seq<real>) returns (ghost perm: seq<nat>)
    requires nodes != depths && nodes.Length == depths.Length == |weights|
    modifies nodes, depths
    ensures Rearranged(old(nodes[..]), old(depths[..]), nodes[..], depths[..], perm)
    ensures Ascending(depths[..])
  {
    var i := nodes.Length;
    perm := seq(nodes.Length, k => k);
    while i > 0
      invariant 0 <= i <= nodes.Length
      invariant Rearranged(old(nodes[..]), old(depths[..]), nodes[..], depths[..], perm)
      invariant forall j, k :: 0 <= j < k < depths.Length && k >= i ==> depths[j] <= depths[k]
    {
      perm := BubblePass(nodes, depths, weights, i, old(nodes[..]), old(depths[..]), perm);
      i := i - 1;
    }
  }

  /** A driver stands before everything it drives. */
  ghost predicate TopoOrdered(ins: seq<seq<nat>>, nodes: seq<nat>) {
    forall d: nat, i: nat :: Edge(ins, nodes, d, i) ==> d < i
  }

  lemma SortedIsTopological(ins: seq<seq<nat>>, ns: seq<nat>, ds: seq<nat>, ns': seq<nat>, ds': seq<nat>,
      perm: seq<nat>)
    requires Settled(ins, ns, ds) && Rearranged(ns, ds, ns', ds', perm) && Ascending(ds')
    ensures TopoOrdered(ins, ns')
  {
    forall d: nat, i: nat | Edge(ins, ns', d, i) ensures d < i {
      assert Edge(ins, ns, perm[d], perm[i]);
    }
  }

  /** local_dfs_lgknds: on members that form no cycle it ends, each depth is the length of the
      longest chain to its node, and the array ends up in topological order. */
  method LocalDfsLgknds(ins: seq<seq<nat>>, nodes: array<nat>, weights: seq<real>, ghost rk: seq<nat>)
    returns (depths: array<nat>, ghost perm: seq<nat>)
    requires |weights| == nodes.Length
    requires forall k :: 0 <= k < nodes.Length ==> nodes[k] < |ins|
    requires Bounded(ins, nodes[..], rk)
    modifies nodes
    ensures fresh(depths) && depths.Length == nodes.Length && Permutes(perm, nodes.Length)
    ensures forall k :: 0 <= k < nodes.Length ==> nodes[k] == old(nodes[..])[perm[k]]
    ensures forall k :: 0 <= k < nodes.Length ==> Longest(ins, old(nodes[..]), perm[k], depths[k])
    ensures Ascending(depths[..]) && TopoOrdered(ins, nodes[..])
  {
    ghost var ns := nodes[..];
    depths := Depths(ins, nodes, rk);
    ghost var ds := depths[..];
    perm := BubbleSort(nodes, depths, weights);
    SortedIsTopological(ins, ns, ds, nodes[..], depths[..], perm);
  }
}
