/** Depth marking of the whole network by a recursive, label-correcting search
    (dfs_lgknd_tree_depth, dfs_lgkntwk_depth). */
module DepthDfs {
  import opened Seqs
  import opened LogicNetwork
  import opened NetworkPasses

  /** A walk along fan-out lists, latches included. */
  ghost predicate Walk(net: Net, p: seq<nat>)
    requires Shaped(net)
  {
    p != [] && (forall k :: 0 <= k < |p| ==> p[k] < net.Size())
    && forall k :: 0 <= k < |p| - 1 ==> p[k + 1] in net.outs[p[k]]
  }

  /** Where the marking starts: primary inputs and constant generators. */
  predicate Source(net: Net, n: nat) {
    n < |net.kind| && n < |net.ins| && (net.kind[n] == Pi || (net.IsGate(n) && net.ins[n] == []))
  }

  ghost predicate SourceWalk(net: Net, p: seq<nat>, n: nat)
    requires Shaped(net)
  {
    Walk(net, p) && Source(net, p[0]) && p[|p| - 1] == n
  }

  /** d is the length of the longest walk from any source to n; 0 also when there is none. */
  ghost predicate LongestFromSource(net: Net, n: nat, d: nat)
    requires Shaped(net)
  {
    && (forall p :: SourceWalk(net, p, n) ==> |p| <= d + 1)
    && (d == 0 || ReachedBy(net, n, d))
  }

  ghost predicate ReachedBy(net: Net, n: nat, d: nat)
    requires Shaped(net)
  {
    exists p :: SourceWalk(net, p, n) && |p| == d + 1
  }

  /** The whole graph, latches included, has no cycle. */
  ghost predicate NoCycle(net: Net, rk: seq<nat>)
    requires Shaped(net)
  {
    |rk| == net.Size() && forall u: nat, i {:trigger net.outs[u][i]} :: u < net.Size() && 0 <= i < |net.outs[u]| ==>
      rk[u] < rk[net.outs[u][i]]
  }

  ghost predicate SettledAt(net: Net, depth: seq<nat>, u: nat)
    requires Shaped(net) && |depth| == net.Size() && u < net.Size()
  {
    forall i :: 0 <= i < |net.outs[u]| ==> depth[u] + 1 <= depth[net.outs[u][i]]
  }

  /** Every positive depth is the length of some walk from a source to a node that is not a dead end. */
  ghost predicate Labels(net: Net, depth: seq<nat>)
    requires Shaped(net)
  {
    |depth| == net.Size()
    && forall n: nat {:trigger depth[n]} :: n < net.Size() && depth[n] > 0 ==>
      ReachedBy(net, n, depth[n]) && !DeadEnd(net, n)
  }

  /** A node other than a primary output that drives nothing. */
  predicate DeadEnd(net: Net, n: nat) {
    n < |net.kind| && n < |net.outs| && net.kind[n] != Po && net.outs[n] == []
  }

  /** Depths only grow, and whatever changed or was settled before is settled afterwards. */
  ghost predicate Keeps(net: Net, before: seq<nat>, after: seq<nat>)
    requires Shaped(net) && |before| == |after| == net.Size()
  {
    forall u: nat {:trigger SettledAt(net, after, u)} {:trigger after[u]} :: u < net.Size() ==>
      before[u] <= after[u] && (after[u] != before[u] || SettledAt(net, before, u) ==> SettledAt(net, after, u))
  }

  lemma KeepsTrans(net: Net, a: seq<nat>, b: seq<nat>, c: seq<nat>)
    requires Shaped(net) && |a| == |b| == |c| == net.Size() && Keeps(net, a, b) && Keeps(net, b, c)
    ensures Keeps(net, a, c)
  {
    forall u: nat | u < net.Size()
      ensures a[u] <= c[u] && (c[u] != a[u] || SettledAt(net, a, u) ==> SettledAt(net, c, u))
    {
      assert a[u] <= b[u] <= c[u];
    }
  }

  /** One raised label, settled by the search below it. */
  lemma RaiseKeeps(net: Net, a: seq<nat>, v: nat, d: nat, c: seq<nat>)
    requires Shaped(net) && |a| == |c| == net.Size() && v < net.Size() && a[v] <= d
    requires Keeps(net, a[v := d], c) && SettledAt(net, c, v)
    ensures Keeps(net, a, c)
  {
    var b := a[v := d];
    forall u: nat | u < net.Size()
      ensures a[u] <= c[u] && (c[u] != a[u] || SettledAt(net, a, u) ==> SettledAt(net, c, u))
    {
      assert b[u] <= c[u];
      if u != v && SettledAt(net, a, u) {
        assert SettledAt(net, b, u);
      }
    }
  }

  lemma KeepsRefl(net: Net, a: seq<nat>)
    requires Shaped(net) && |a| == net.Size()
    ensures Keeps(net, a, a)
  {
  }

  lemma ReachNext(net: Net, u: nat, v: nat, d: nat)
    requires Shaped(net) && u < net.Size() && v < net.Size() && v in net.outs[u] && ReachedBy(net, u, d)
    ensures ReachedBy(net, v, d + 1)
  {
    var p :| SourceWalk(net, p, u) && |p| == d + 1;
    assert SourceWalk(net, p + [v], v);
  }

  lemma RaiseLabel(net: Net, depth: seq<nat>, u: nat, v: nat)
    requires Shaped(net) && Labels(net, depth) && u < net.Size() && v < net.Size() && v in net.outs[u]
    requires ReachedBy(net, u, depth[u]) && !DeadEnd(net, v)
    ensures Labels(net, depth[v := depth[u] + 1]) && ReachedBy(net, v, depth[u] + 1)
  {
    ReachNext(net, u, v, depth[u]);
  }

  lemma NotDriven(net: Net, u: nat, v: nat)
    requires NetOk(net) && u < net.Size() && v < net.Size() && v in net.outs[u]
    ensures net.kind[v] != Pi
    ensures net.kind[v] == Po ==> net.outs[v] == []
  {
    EdgeBothWays(net, u, v);
  }

  ghost function Unflagged(dfsed: seq<bool>): set<nat> {
    set n: nat | n < |dfsed| && !dfsed[n]
  }

  lemma FlagShrinks(dfsed: seq<bool>, n: nat)
    requires n < |dfsed| && !dfsed[n]
    ensures Unflagged(dfsed[n := true]) < Unflagged(dfsed)
  {
    assert n in Unflagged(dfsed);
  }

  /** Nodes on the search path lie before n in every ranking. */
  ghost predicate PathBefore(dfsed: seq<bool>, rk: seq<nat>, n: nat) {
    |rk| == |dfsed| && n < |rk| && forall m: nat :: m < |dfsed| && dfsed[m] ==> rk[m] <= rk[n]
  }

  /** The children of root seen so far are deep enough. */
  ghost predicate Passed(net: Net, depth: seq<nat>, root: nat, k: nat)
    requires Shaped(net) && |depth| == net.Size() && root < net.Size() && k <= |net.outs[root]|
  {
    forall i :: 0 <= i < k ==> depth[root] + 1 <= depth[net.outs[root][i]]
  }

  /** dfs_lgknd_tree_depth; ok is false where the source prints an error and exits. It ends on every
      network, since a node on the search path is not entered again. */
  method DfsTree(net: Net, depth: array<nat>, dfsed: array<bool>, root: nat, ghost rk: seq<nat>) returns (ok: bool)
    requires NetOk(net) && depth.Length == dfsed.Length == net.Size() && root < net.Size() && !dfsed[root]
    requires Labels(net, depth[..]) && ReachedBy(net, root, depth[root])
    modifies depth, dfsed
    ensures ok ==> dfsed[..] == old(dfsed[..]) && Labels(net, depth[..])
    ensures ok ==> forall n: nat :: n < net.Size() && (n == root || old(dfsed[n])) ==> depth[n] == old(depth[n])
    ensures ok && NoCycle(net, rk) && old(PathBefore(dfsed[..], rk, root)) ==>
      Keeps(net, old(depth[..]), depth[..]) && SettledAt(net, depth[..], root)
    ensures !ok ==> exists n: nat, d: nat :: d > 0 && n < net.Size() && ReachedBy(net, n, d) && DeadEnd(net, n)
    decreases Unflagged(dfsed[..])
  {
    hide Agree, ArityOk, Keeps, ReachedBy, Labels, Unflagged, NoCycle;
    ghost var before, flags := depth[..], dfsed[..];
    ghost var good := NoCycle(net, rk) && PathBefore(flags, rk, root);
    FlagShrinks(flags, root);
    dfsed[root] := true;
    assert dfsed[..] == flags[root := true];
    KeepsRefl(net, before);
    for im := 0 to |net.outs[root]|
      invariant dfsed[..] == flags[root := true]
      invariant Labels(net, depth[..])
      invariant forall n: nat :: n < net.Size() && (n == root || flags[n]) ==> depth[n] == before[n]
      invariant good ==> Keeps(net, before, depth[..]) && Passed(net, depth[..], root, im)
    {
      var v := net.outs[root][im];
      NotDriven(net, root, v);
      ghost var mid := depth[..];
      if !dfsed[v] && depth[v] < depth[root] + 1 {
        if net.kind[v] != Po && net.outs[v] == [] {
          ReachNext(net, root, v, depth[root]);
          return false;
        }
        RaiseLabel(net, depth[..], root, v);
        depth[v] := depth[root] + 1;
        assert depth[..] == mid[v := mid[root] + 1];
        if net.kind[v] != Po {
          if good { ChildBefore(net, rk, flags, root, im); }
          var down := DfsTree(net, depth, dfsed, v, rk);
          if !down {
            return false;
          }
        } else {
          KeepsRefl(net, depth[..]);
        }
        if good {
          AfterChild(net, before, mid, v, depth[..], root, im);
        }
      } else if good {
        ChildBefore(net, rk, flags, root, im);
      }
    }
    dfsed[root] := false;
    assert dfsed[..] == flags;
    ok := true;
  }

  lemma ChildBefore(net: Net, rk: seq<nat>, flags: seq<bool>, root: nat, i: nat)
    requires Shaped(net) && NoCycle(net, rk) && |flags| == net.Size() && PathBefore(flags, rk, root)
      && i < |net.outs[root]|
    ensures PathBefore(flags[root := true], rk, net.outs[root][i]) && !flags[root := true][net.outs[root][i]]
  {
    assert rk[root] < rk[net.outs[root][i]];
  }

  lemma AfterChild(net: Net, before: seq<nat>, mid: seq<nat>, v: nat, now: seq<nat>, root: nat, i: nat)
    requires Shaped(net) && root < net.Size() && i < |net.outs[root]| && v == net.outs[root][i]
    requires |before| == |mid| == |now| == net.Size() && mid[v] < mid[root] + 1 && now[root] == mid[root]
    requires Keeps(net, before, mid) && Keeps(net, mid[v := mid[root] + 1], now) && SettledAt(net, now, v)
    requires Passed(net, mid, root, i)
    ensures Keeps(net, before, now) && Passed(net, now, root, i + 1)
  {
    RaiseKeeps(net, mid, v, mid[root] + 1, now);
    KeepsTrans(net, before, mid, now);
    assert mid[v := mid[root] + 1][v] <= now[v];
    forall k | 0 <= k < i + 1 ensures now[root] + 1 <= now[net.outs[root][k]] {
      if k < i {
        assert mid[net.outs[root][k]] <= now[net.outs[root][k]];
      }
    }
  }

  // ----- the whole network

  lemma {:induction false} SettledBoundsWalks(net: Net, depth: seq<nat>, p: seq<nat>, n: nat)
    requires Shaped(net) && |depth| == net.Size() && SourceWalk(net, p, n)
    requires forall u: nat :: u < net.Size() && (Source(net, u) || depth[u] > 0) ==> SettledAt(net, depth, u)
    ensures |p| <= depth[n] + 1
    decreases |p|
  {
    if |p| > 1 {
      var q := p[..|p| - 1];
      var u := q[|q| - 1];
      assert SourceWalk(net, q, u) by {
        assert forall k :: 0 <= k < |q| ==> q[k] == p[k];
      }
      SettledBoundsWalks(net, depth, q, u);
      assert u == p[|p| - 2] && n in net.outs[u];
      assert SettledAt(net, depth, u) by {
        if |q| == 1 { assert Source(net, u); }
      }
      var i :| 0 <= i < |net.outs[u]| && net.outs[u][i] == n;
    }
  }

  lemma ZeroLabels(net: Net, depth: seq<nat>)
    requires Shaped(net) && |depth| == net.Size() && forall i :: 0 <= i < |depth| ==> depth[i] == 0
    ensures Labels(net, depth)
  {
  }

  lemma SourceReached(net: Net, n: nat)
    requires Shaped(net) && n < net.Size() && Source(net, n)
    ensures ReachedBy(net, n, 0)
  {
    assert SourceWalk(net, [n], n);
  }

  /** Nothing drives a source, so no label ever rises there. */
  lemma SourceAtZero(net: Net, depth: seq<nat>, n: nat)
    requires NetOk(net) && Labels(net, depth) && n < net.Size() && Source(net, n)
    ensures depth[n] == 0
  {
    if depth[n] > 0 {
      var p :| SourceWalk(net, p, n) && |p| == depth[n] + 1;
      EdgeBothWays(net, p[|p| - 2], n);
    }
  }

  ghost predicate DeadEndReached(net: Net)
    requires Shaped(net)
  {
    exists n: nat, d: nat :: d > 0 && n < net.Size() && ReachedBy(net, n, d) && DeadEnd(net, n)
  }

  /** One source searched from. */
  method DfsSource(net: Net, depth: array<nat>, dfsed: array<bool>, n: nat, ghost rk: seq<nat>) returns (ok: bool)
    requires NetOk(net) && depth.Length == dfsed.Length == net.Size() && n < net.Size() && Source(net, n)
    requires Labels(net, depth[..]) && forall i :: 0 <= i < dfsed.Length ==> !dfsed[i]
    modifies depth, dfsed
    ensures ok ==> Labels(net, depth[..]) && forall i :: 0 <= i < dfsed.Length ==> !dfsed[i]
    ensures ok && NoCycle(net, rk) ==> Keeps(net, old(depth[..]), depth[..]) && SettledAt(net, depth[..], n)
    ensures !ok ==> DeadEndReached(net)
  {
    hide Agree, ArityOk, Keeps, Labels, SettledAt, ReachedBy;
    SourceAtZero(net, depth[..], n);
    SourceReached(net, n);
    ok := DfsTree(net, depth, dfsed, n, rk);
    if ok {
      forall i | 0 <= i < dfsed.Length ensures !dfsed[i] {
        assert dfsed[i] == dfsed[..][i];
      }
    }
  }

  /** The sources the loop has been through are settled. */
  ghost predicate Through(net: Net, depth: seq<nat>, s: seq<nat>, k: nat)
    requires Shaped(net) && |depth| == net.Size() && k <= |s|
  {
    forall i :: 0 <= i < k && s[i] < net.Size() && Source(net, s[i]) ==> SettledAt(net, depth, s[i])
  }

  lemma ThroughKept(net: Net, a: seq<nat>, b: seq<nat>, s: seq<nat>, k: nat)
    requires Shaped(net) && |a| == |b| == net.Size() && k <= |s| && Keeps(net, a, b) && Through(net, a, s, k)
    ensures Through(net, b, s, k)
  {
    hide SettledAt;
    forall i | 0 <= i < k && s[i] < net.Size() && Source(net, s[i]) ensures SettledAt(net, b, s[i]) {
    }
  }

  /** dfs_lgkntwk_depth: from every primary input, then from every constant generator. On a network
      without cycles each depth ends as the longest walk from any source; the error exit is taken
      exactly when a source leads to a node that is no primary output and drives nothing. */
  method MarkDepths(net: Netlist, pis: seq<nat>, ghost rk: seq<nat>) returns (ok: bool, depth: array<nat>)
    requires forall n: nat :: n in pis <==> n < net.Size() && net.kind[n] == Pi
    ensures depth.Length == net.Size()
    ensures ok && NoCycle(net, rk) ==> forall n: nat :: n < net.Size() ==> LongestFromSource(net, n, depth[n])
    ensures NoCycle(net, rk) ==> (ok <==> !DeadEndReached(net))
    ensures !ok ==> DeadEndReached(net)
  {
    hide Keeps, Labels, SettledAt, Through, NoCycle, Agree, ArityOk, Acyclic, ListsOk, DeadEndReached;
    depth := new nat[|net.kind|](i => 0);
    var dfsed := new bool[|net.kind|](i => false);
    ghost var zero := depth[..];
    ZeroLabels(net, zero);
    KeepsRefl(net, zero);
    ThroughNone(net, zero, pis);
    for im := 0 to |pis|
      invariant fresh(depth) && fresh(dfsed) && depth.Length == dfsed.Length == net.Size()
      invariant Labels(net, depth[..]) && forall i :: 0 <= i < dfsed.Length ==> !dfsed[i]
      invariant NoCycle(net, rk) ==> Keeps(net, zero, depth[..]) && Through(net, depth[..], pis, im)
    {
      assert pis[im] in pis;
      ghost var mid := depth[..];
      ok := DfsSource(net, depth, dfsed, pis[im], rk);
      if !ok {
        return;
      }
      if NoCycle(net, rk) {
        KeepsTrans(net, zero, mid, depth[..]);
        ThroughKept(net, mid, depth[..], pis, im);
        ThroughNext(net, depth[..], pis, im);
      }
    }
    ThroughNone(net, depth[..], net.gates);
    for im := 0 to |net.gates|
      invariant fresh(depth) && fresh(dfsed) && depth.Length == dfsed.Length == net.Size()
      invariant Labels(net, depth[..]) && forall i :: 0 <= i < dfsed.Length ==> !dfsed[i]
      invariant NoCycle(net, rk) ==>
        Keeps(net, zero, depth[..]) && Through(net, depth[..], pis, |pis|) && Through(net, depth[..], net.gates, im)
    {
      GateListed(net, im);
      ghost var mid := depth[..];
      if net.ins[net.gates[im]] == [] {
        ok := DfsSource(net, depth, dfsed, net.gates[im], rk);
        if !ok {
          return;
        }
        if NoCycle(net, rk) {
          KeepsTrans(net, zero, mid, depth[..]);
          ThroughKept(net, mid, depth[..], pis, |pis|);
          ThroughKept(net, mid, depth[..], net.gates, im);
        }
      }
      if NoCycle(net, rk) {
        ThroughNext(net, depth[..], net.gates, im);
      }
    }
    ok := true;
    if NoCycle(net, rk) {
      AllSettled(net, zero, depth[..], pis);
    }
  }

  lemma ThroughNone(net: Net, depth: seq<nat>, s: seq<nat>)
    requires Shaped(net) && |depth| == net.Size()
    ensures Through(net, depth, s, 0)
  {
  }

  lemma ThroughNext(net: Net, depth: seq<nat>, s: seq<nat>, k: nat)
    requires Shaped(net) && |depth| == net.Size() && k < |s| && Through(net, depth, s, k)
    requires s[k] < net.Size() && (Source(net, s[k]) ==> SettledAt(net, depth, s[k]))
    ensures Through(net, depth, s, k + 1)
  {
    hide SettledAt;
  }

  lemma GateListed(net: Netlist, i: nat)
    requires i < |net.gates|
    ensures net.IsGate(net.gates[i])
  {
    assert net.gates[i] in net.gates;
  }

  lemma AllSettled(net: Netlist, zero: seq<nat>, depth: seq<nat>, pis: seq<nat>)
    requires |zero| == |depth| == net.Size() && (forall i :: 0 <= i < |zero| ==> zero[i] == 0)
    requires Keeps(net, zero, depth) && Labels(net, depth)
    requires Through(net, depth, pis, |pis|) && Through(net, depth, net.gates, |net.gates|)
    requires forall n: nat :: n in pis <==> n < net.Size() && net.kind[n] == Pi
    ensures forall n: nat :: n < net.Size() ==> LongestFromSource(net, n, depth[n])
    ensures !DeadEndReached(net)
  {
    hide SettledAt, Walk, SourceWalk, Agree, ArityOk, Acyclic;
    forall u: nat | u < net.Size() && (Source(net, u) || depth[u] > 0) ensures SettledAt(net, depth, u) {
      if depth[u] == 0 {
        if net.kind[u] == Pi {
          assert u in pis;
        } else {
          assert net.IsGate(u) && u in net.gates;
        }
      }
    }
    forall n: nat | n < net.Size() ensures LongestFromSource(net, n, depth[n]) {
      forall p | SourceWalk(net, p, n) ensures |p| <= depth[n] + 1 {
        SettledBoundsWalks(net, depth, p, n);
      }
    }
    forall n: nat, d: nat | d > 0 && n < net.Size() && ReachedBy(net, n, d) ensures !DeadEnd(net, n) {
      var p :| SourceWalk(net, p, n) && |p| == d + 1;
      assert |p| <= depth[n] + 1;
    }
  }
}
