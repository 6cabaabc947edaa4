/** Choosing the next pattern to try (lgknds_sat_type, pick_pattern_fit_ble). */
module PatternPick {
  import opened Seqs
  import opened LogicNetwork
  import opened NetworkPasses
  import opened LgkntwkEdits
  import opened BleState
  import opened BleRecord
  import opened LocalDfs
  import opened PackInvariant
  import opened PatternSpec
  import opened PatternScale

  // ----- a permutation reaches every position

  ghost function Below(n: nat): (r: set<nat>)
    ensures |r| == n && forall k: nat :: k in r <==> k < n
  {
    if n == 0 then {} else Below(n - 1) + {n - 1}
  }

  lemma {:induction false} DistinctSize(s: seq<nat>)
    requires Distinct(s)
    ensures |Elements(s)| == |s|
  {
    if s == [] {
      assert Elements(s) == {};
    } else {
      DistinctSize(s[1..]);
      assert s == [s[0]] + s[1..];
      assert s[0] !in s[1..];
      assert Elements(s) == {s[0]} + Elements(s[1..]);
    }
  }

  lemma SubsetSameSize(a: set<nat>, b: set<nat>)
    requires a <= b && |a| == |b|
    ensures a == b
  {
    assert |b - a| == |b| - |a|;
  }

  lemma PermutesIsOnto(perm: seq<nat>, n: nat, k: nat)
    requires Permutes(perm, n) && k < n
    ensures k in perm
  {
    DistinctSize(perm);
    SubsetSameSize(Elements(perm), Below(n));
    assert k in Elements(perm);
  }

  // ----- lgknds_sat_type

  /** The predecessors of the root, rearranged so that drivers come first. */
  ghost predicate SortedPreds(net: Net, mode: MemberType, root: nat, r: seq<nat>)
    requires NetOk(net) && root < net.Size()
  {
    var preds := SatPreds(net, mode, root, |net.ins[root]|);
    && |r| == |preds| && Distinct(r) && (forall x: nat :: x in r <==> x in preds)
    && TopoOrdered(net.ins, r)
  }

  lemma PermutedPreds(net: Net, mode: MemberType, root: nat, r: seq<nat>, perm: seq<nat>)
    requires NetOk(net) && root < net.Size()
    requires var preds := SatPreds(net, mode, root, |net.ins[root]|);
      Permutes(perm, |preds|) && |r| == |preds| && forall k :: 0 <= k < |r| ==> r[k] == preds[perm[k]]
    requires TopoOrdered(net.ins, r)
    ensures SortedPreds(net, mode, root, r)
  {
    hide SatPreds, TopoOrdered;
    SatPredsAre(net, mode, root, |net.ins[root]|);
    var preds := SatPreds(net, mode, root, |net.ins[root]|);
    forall x: nat | x in preds ensures x in r {
      var i: nat :| i < |preds| && preds[i] == x;
      PermutesIsOnto(perm, |preds|, i);
      var k :| 0 <= k < |perm| && perm[k] == i;
      assert r[k] == x;
    }
  }

  /** Collect the predecessors, each with the weight of the edge that brought it. */
  method CollectPreds(nw: Lgkntwk, mode: MemberType, root: nat, edgeWeight: (nat, nat) -> real)
    returns (preds: seq<nat>, weights: seq<real>)
    requires NetOk(nw.State()) && root < |nw.kind|
    ensures preds == SatPreds(nw.State(), mode, root, |nw.ins[root]|) && |weights| == |preds|
  {
    hide Agree, IndexOf, SatPreds;
    ghost var net := nw.State();
    preds, weights := [], [];
    NoPreds(net, mode, root);
    for im := 0 to |nw.ins[root]|
      invariant preds == SatPreds(net, mode, root, im) && |weights| == |preds|
    {
      var i := nw.ins[root][im];
      var found: Option<nat> := None;
      if mode == Normal {
        if nw.kind[i] == Latch && !nw.mapped[nw.ins[i][0]] {
          if root != nw.ins[i][0] {
            found := Some(nw.ins[i][0]);
          }
        } else if nw.kind[i] != Pi && nw.kind[i] != Po && !nw.mapped[i] {
          found := Some(i);
        }
      } else {
        if nw.kind[i] != Pi && nw.kind[i] != Po && nw.kind[i] != Latch && !nw.mapped[i] {
          found := Some(i);
        }
      }
      assert found == Candidate(net, mode, root, i);
      PredsNext(net, mode, root, im);
      if found.Some? {
        var spot := IndexOf(preds, found.value);
        if spot == -1 {
          preds := preds + [found.value];
          weights := weights + [edgeWeight(root, im)];
        }
      }
    }
  }

  /** lgknds_sat_type with strong mode on. */
  method SatType(nw: Lgkntwk, mode: MemberType, root: nat, edgeWeight: (nat, nat) -> real) returns (r: seq<nat>)
    requires Prepared(nw.State()) && LatchesDriven(nw.State()) && (mode == Normal ==> Following(nw.State()))
    requires nw.State().IsGate(root)
    ensures SortedPreds(nw.State(), mode, root, r)
  {
    hide Prepared, SatPreds, SortedPreds, Permutes, TopoOrdered, Bounded, Following, LatchesDriven, Longest, Ascending;
    ghost var net: Netlist := nw.State();
    PreparedNet(net);
    var preds, weights := CollectPreds(nw, mode, root, edgeWeight);
    ghost var ranks := PredRanks(net, mode, root, preds);
    var nodes := new nat[|preds|](i requires 0 <= i < |preds| => preds[i]);
    assert nodes[..] == preds;
    var depths, perm := LocalDfsLgknds(nw.ins, nodes, weights, ranks);
    r := nodes[..];
    PermutedPreds(net, mode, root, r, perm);
  }

  lemma PreparedNet(net: Netlist)
    ensures NetOk(net)
  {
  }

  /** The predecessors form no cycle. */
  lemma PredRanks(net: Netlist, mode: MemberType, root: nat, preds: seq<nat>) returns (ranks: seq<nat>)
    requires LatchesDriven(net) && (mode == Normal ==> Following(net)) && net.IsGate(root)
    requires preds == SatPreds(net, mode, root, |net.ins[root]|)
    ensures forall k :: 0 <= k < |preds| ==> preds[k] < |net.ins|
    ensures Bounded(net.ins, preds, ranks)
  {
    hide Agree, ListsOk, Ranked, SatPreds, Following, LatchesDriven, Bounded;
    PredsAreOpenGates(net, mode, root);
    assert forall k :: 0 <= k < |preds| ==> preds[k] in preds;
    var rk: seq<nat> :| Ranked(net, rk);
    RankedSize(net, rk);
    MembersBounded(net, rk, preds);
    ranks := MemberRanks(rk, preds);
  }

  lemma RankedSize(net: Net, rk: seq<nat>)
    requires Shaped(net) && Ranked(net, rk)
    ensures |rk| == net.Size()
  {
  }

  // ----- pick_pattern_fit_ble

  function Limit(archType: nat, all: seq<nat>): nat { if |all| > archType then archType else |all| }

  /** All patterns of one root have been weighed; the flags of sizes out of reach are as they were. */
  ghost predicate Considered(net: Net, sc: Scale, mode: MemberType, archType: nat, was: seq<bool>, row: seq<bool>,
      best: Attraction, g: nat, preds: seq<nat>)
    requires NetOk(net) && g < net.Size()
  {
    SortedPreds(net, mode, g, preds) && |preds| < |was| == |row|
    && WeighedDown(sc, was, row, preds + [g], Limit(archType, preds + [g]), 0, best)
  }

  ghost predicate AllConsidered(net: Net, sc: Scale, mode: MemberType, archType: nat, was: seq<bool>, row: seq<bool>,
      best: Attraction, g: nat)
    requires NetOk(net) && g < net.Size()
  {
    exists preds :: Considered(net, sc, mode, archType, was, row, best, g, preds)
  }

  /** members is the end of its root's sorted predecessors and the root. */
  ghost predicate Offered(net: Net, mode: MemberType, members: seq<nat>, preds: seq<nat>)
    requires NetOk(net)
  {
    && members != [] && |members| <= |preds| + 1
    && var root := members[|members| - 1];
       && net.IsGate(root) && root < |net.mapped| && !net.mapped[root] && SortedPreds(net, mode, root, preds)
       && members == (preds + [root])[|preds| + 1 - |members|..]
  }

  ghost predicate IsOffered(net: Net, mode: MemberType, members: seq<nat>)
    requires NetOk(net)
  {
    exists preds :: Offered(net, mode, members, preds)
  }

  /** Different unmapped gates: predecessors of the root in topological order, then the root. */
  ghost predicate PatternOf(net: Net, mode: MemberType, members: seq<nat>)
    requires NetOk(net)
  {
    && members != [] && Distinct(members)
    && (forall i :: 0 <= i < |members| ==> members[i] < net.Size() && net.IsGate(members[i]) && !net.mapped[members[i]])
    && TopoOrdered(net.ins, members[..|members| - 1])
    && var root := members[|members| - 1];
       forall i :: 0 <= i < |members| - 1 ==> members[i] in SatPreds(net, mode, root, |net.ins[root]|)
  }

  ghost predicate TriedShape(net: Net)
    requires Shaped(net)
  {
    forall g: nat {:trigger net.tried[g]} :: g < net.Size() && net.IsGate(g) ==> |net.tried[g]| == |net.ins[g]| + 1
  }

  /** Flags are only set, never cleared. */
  ghost predicate TriedGrows(a: seq<seq<bool>>, b: seq<seq<bool>>) {
    && |a| == |b|
    && (forall g :: 0 <= g < |a| ==> |a[g]| == |b[g]|)
    && (forall g, t :: 0 <= g < |a| && 0 <= t < |a[g]| && a[g][t] ==> b[g][t])
  }

  lemma SuffixIsPattern(net: Netlist, mode: MemberType, root: nat, preds: seq<nat>, k: nat)
    requires LatchesDriven(net) && (mode == Normal ==> Following(net)) && net.IsGate(root) && !net.mapped[root]
    requires SortedPreds(net, mode, root, preds) && k <= |preds|
    ensures PatternOf(net, mode, (preds + [root])[k..])
  {
    hide SatPreds, Prepared, Following, LatchesDriven, TopoOrdered, SortedPreds, Distinct;
    SortedAreOpen(net, mode, root, preds);
    SuffixOfSorted(net.ins, preds, root, k);
    SuffixSplits(preds, root, k);
  }

  lemma SuffixSplits(preds: seq<nat>, root: nat, k: nat)
    requires k <= |preds|
    ensures var members := (preds + [root])[k..];
      |members| == |preds| - k + 1 && members[..|members| - 1] == preds[k..] && members[|members| - 1] == root
      && forall i :: 0 <= i < |members| - 1 ==> members[i] == preds[k + i]
  {
  }

  lemma SortedAreOpen(net: Netlist, mode: MemberType, root: nat, preds: seq<nat>)
    requires LatchesDriven(net) && (mode == Normal ==> Following(net)) && net.IsGate(root)
      && SortedPreds(net, mode, root, preds)
    ensures NetOk(net) && Distinct(preds) && TopoOrdered(net.ins, preds)
    ensures forall i :: 0 <= i < |preds| ==> net.IsGate(preds[i]) && !net.mapped[preds[i]] && preds[i] != root
                                             && preds[i] in SatPreds(net, mode, root, |net.ins[root]|)
  {
    hide SatPreds, Agree, ListsOk, Acyclic, Following, LatchesDriven, TopoOrdered;
    PredsAreOpenGates(net, mode, root);
    assert forall i :: 0 <= i < |preds| ==> preds[i] in preds;
  }

  lemma SuffixOfSorted(ins: seq<seq<nat>>, preds: seq<nat>, root: nat, k: nat)
    requires Distinct(preds) && TopoOrdered(ins, preds) && k <= |preds| && forall i :: 0 <= i < |preds| ==>
      preds[i] != root
    ensures Distinct((preds + [root])[k..]) && TopoOrdered(ins, preds[k..])
  {
    hide Edge;
    forall d: nat, i: nat | Edge(ins, preds[k..], d, i) ensures d < i {
      EdgeInSuffix(ins, preds, k, d, i);
    }
  }

  lemma EdgeInSuffix(ins: seq<seq<nat>>, nodes: seq<nat>, k: nat, d: nat, i: nat)
    requires k <= |nodes| && Edge(ins, nodes[k..], d, i)
    ensures Edge(ins, nodes, d + k, i + k)
  {
  }

  /** One root: its patterns of every size from the largest down, unless tried before. */
  method TryRoot(nw: Lgkntwk, mode: MemberType, root: nat, archType: nat, sc: Scale,
      edgeWeight: (nat, nat) -> real, best0: Attraction, members0: seq<nat>)
    returns (best: Attraction, members: seq<nat>, ghost preds: seq<nat>)
    requires Prepared(nw.State()) && LatchesDriven(nw.State()) && (mode == Normal ==> Following(nw.State()))
    requires nw.State().IsGate(root) && !nw.mapped[root] && TriedShape(nw.State()) && archType >= 1
    requires |members0| <= archType && best0 == Standing(sc, members0)
    modifies nw`tried
    ensures TriedGrows(old(nw.tried), nw.tried) && |members| <= archType && best == Standing(sc, members)
    ensures NetOk(old(nw.State())) && root < |old(nw.tried)| == |nw.tried|
    ensures Considered(old(nw.State()), sc, mode, archType, old(nw.tried)[root], nw.tried[root], best, root, preds)
    ensures forall c :: NotBetter(sc, c, best0) ==> NotBetter(sc, c, best)
    ensures members == members0
      || (PatternOf(old(nw.State()), mode, members) && Offered(old(nw.State()), mode, members, preds)
          && members[|members| - 1] == root && |members| <= |nw.tried[root]| && !nw.tried[root][|members| - 1]
          && Displaces(sc, best, best0))
    ensures forall g :: 0 <= g < |nw.tried| && g != root ==> nw.tried[g] == old(nw.tried[g])
  {
    hide Prepared, SortedPreds, PatternOf, Offered, Following, LatchesDriven, SatPreds, TriedGrows, WeighedDown,
      NotBetter,
      Displaces, Score, Forbids, Weight, Trying, Considered, TriedShape, Agree, ArityOk, Standing, Shaped;
    ghost var net: Netlist := nw.State();
    PreparedNet(net);
    PreparedIsShaped(net);
    best, members := best0, members0;
    var sorted := SatType(nw, mode, root, edgeWeight);
    preds := sorted;
    PredsFew(net, mode, root, preds);
    RootRow(net, root);
    var all := sorted + [root];
    var itype := Limit(archType, all);
    ghost var top := itype;
    TryingStarts(net, sc, mode, root, preds, top, best0, members0);
    while itype > 0
      invariant 0 <= itype <= top && |members| <= archType
      invariant nw.State() == net.(tried := nw.tried)
      invariant |nw.tried| == |net.tried| && |nw.tried[root]| == |net.tried[root]|
      invariant Trying(net, nw.tried, sc, mode, root, preds, top, itype, best0, members0, best, members)
    {
      var cand := all[|all| - itype..];
      ghost var before, was, had := nw.tried, best, members;
      var taken := WeighSize(nw, root, sc, cand, best);
      if taken {
        best, members := Score(sc, cand), cand;
      }
      TryingNext(net, before, nw.tried, sc, mode, root, preds, top, itype, best0, members0, was, had, best, members,
        taken);
      itype := itype - 1;
    }
    TryingEnds(net, nw.tried, sc, mode, archType, root, preds, top, best0, members0, best, members);
  }

  lemma RootRow(net: Net, root: nat)
    requires Shaped(net) && TriedShape(net) && net.IsGate(root)
    ensures |net.tried[root]| == |net.ins[root]| + 1
  {
  }

  /** The state of the scan over the sizes of one root, those above low done. */
  ghost predicate Trying(net: Netlist, now: seq<seq<bool>>, sc: Scale, mode: MemberType, root: nat, preds: seq<nat>,
      top: nat, low: nat, best0: Attraction, members0: seq<nat>, best: Attraction, members: seq<nat>)
    requires NetOk(net) && root < |net.tried| == |now| && |preds| < |net.tried[root]| == |now[root]|
      && low <= top <= |preds| + 1
  {
    && TriedGrows(net.tried, now)
    && (forall g :: 0 <= g < |now| && g != root ==> now[g] == net.tried[g])
    && best == Standing(sc, members)
    && WeighedDown(sc, net.tried[root], now[root], preds + [root], top, low, best)
    && (forall c :: NotBetter(sc, c, best0) ==> NotBetter(sc, c, best))
    && ((best == best0 && members == members0) || Taken(net, now, sc, mode, root, preds, low, best0, best, members))
  }

  /** The choice is one of this root's patterns of a size above low. */
  ghost predicate Taken(net: Netlist, now: seq<seq<bool>>, sc: Scale, mode: MemberType, root: nat, preds: seq<nat>,
      low: nat, best0: Attraction, best: Attraction, members: seq<nat>)
    requires NetOk(net) && root < |now|
  {
    && PatternOf(net, mode, members) && Offered(net, mode, members, preds) && |members| > low
    && members[|members| - 1] == root && |members| <= |now[root]| && !now[root][|members| - 1]
    && Displaces(sc, best, best0)
  }

  lemma TryingStarts(net: Netlist, sc: Scale, mode: MemberType, root: nat, preds: seq<nat>, top: nat, best0: Attraction,
      members0: seq<nat>)
    requires NetOk(net) && root < |net.tried| && |preds| < |net.tried[root]| && top <= |preds| + 1
      && best0 == Standing(sc, members0)
    ensures Trying(net, net.tried, sc, mode, root, preds, top, top, best0, members0, best0, members0)
  {
    hide Prepared, NetOk, NotBetter, Score, Weighed;
    GrowsRefl(net.tried);
  }

  lemma TryingEnds(net: Netlist, now: seq<seq<bool>>, sc: Scale, mode: MemberType, archType: nat, root: nat,
      preds: seq<nat>,
      top: nat, best0: Attraction, members0: seq<nat>, best: Attraction, members: seq<nat>)
    requires NetOk(net) && root < net.Size() && root < |net.tried| == |now|
      && |preds| < |net.tried[root]| == |now[root]|
    requires top == Limit(archType, preds + [root]) && SortedPreds(net, mode, root, preds)
    requires Trying(net, now, sc, mode, root, preds, top, 0, best0, members0, best, members)
    ensures TriedGrows(net.tried, now) && best == Standing(sc, members)
    ensures Considered(net, sc, mode, archType, net.tried[root], now[root], best, root, preds)
    ensures forall c :: NotBetter(sc, c, best0) ==> NotBetter(sc, c, best)
    ensures members == members0
      || (PatternOf(net, mode, members) && Offered(net, mode, members, preds)
          && members[|members| - 1] == root && |members| <= |now[root]| && !now[root][|members| - 1]
          && Displaces(sc, best, best0))
    ensures forall g :: 0 <= g < |now| && g != root ==> now[g] == net.tried[g]
  {
    hide Prepared, NetOk, NotBetter, Score, WeighedDown, SortedPreds, TriedGrows, PatternOf, Offered, Displaces;
  }

  lemma TryingNext(net: Netlist, before: seq<seq<bool>>, now: seq<seq<bool>>, sc: Scale, mode: MemberType, root: nat,
      preds: seq<nat>, top: nat, low: nat, best0: Attraction, members0: seq<nat>, was: Attraction, had: seq<nat>,
      best: Attraction, members: seq<nat>, taken: bool)
    requires LatchesDriven(net) && (mode == Normal ==> Following(net)) && net.IsGate(root) && !net.mapped[root]
    requires NetOk(net) && root < |net.tried| == |before| == |now| && 0 < low <= top <= |preds| + 1
    requires |preds| < |net.tried[root]| == |before[root]| == |now[root]| && SortedPreds(net, mode, root, preds)
    requires Trying(net, before, sc, mode, root, preds, top, low, best0, members0, was, had)
    requires var cand := (preds + [root])[|preds| + 1 - low..];
      && now == (if !before[root][low - 1] && Forbids(sc, cand) then before[root := before[root][low - 1 := true]]
        else before)
      && (taken ==>
            !before[root][low - 1] && !Forbids(sc, cand) && Displaces(sc, Score(sc, cand), was)
            && best == Score(sc, cand) && members == cand)
      && (!taken ==>
            best == was && members == had
            && (before[root][low - 1] || Forbids(sc, cand) || NotBetter(sc, Score(sc, cand), was)))
    ensures Trying(net, now, sc, mode, root, preds, top, low - 1, best0, members0, best, members)
  {
    hide Prepared, NotBetter, Score, WeighedDown, SortedPreds, TriedGrows, PatternOf, Offered, Displaces, Forbids,
      Following,
      LatchesDriven;
    var all := preds + [root];
    var cand := all[|all| - low..];
    UnweighedYet(sc, net.tried[root], before[root], all, top, low, was);
    GrowsOne(net.tried, before, root, low - 1);
    if taken {
      TakesPlace(net, sc, mode, root, preds, low, best0, was, had == members0 && was == best0);
      WeighedLater(sc, net.tried[root], before[root], all, top, low, was, best);
    }
    WeighedNext(sc, net.tried[root], before[root], now[root], all, top, low, best);
  }

  lemma TakesPlace(net: Netlist, sc: Scale, mode: MemberType, root: nat, preds: seq<nat>, low: nat, best0: Attraction,
      was: Attraction, first: bool)
    requires LatchesDriven(net) && (mode == Normal ==> Following(net)) && net.IsGate(root) && !net.mapped[root]
    requires NetOk(net) && 0 < low <= |preds| + 1 && SortedPreds(net, mode, root, preds)
    requires var cand := (preds + [root])[|preds| + 1 - low..];
      Displaces(sc, Score(sc, cand), was) && if first then was == best0 else Displaces(sc, was, best0)
    ensures var cand := (preds + [root])[|preds| + 1 - low..];
      && PatternOf(net, mode, cand) && Offered(net, mode, cand, preds) && |cand| == low && cand[low - 1] == root
      && Displaces(sc, Score(sc, cand), best0) && NotBetter(sc, Score(sc, cand), Score(sc, cand))
      && forall c :: NotBetter(sc, c, was) ==> NotBetter(sc, c, Score(sc, cand))
  {
    hide Prepared, NotBetter, Score, SortedPreds, PatternOf, Offered, Displaces, Following, LatchesDriven;
    var cand := (preds + [root])[|preds| + 1 - low..];
    Displaced(sc, Score(sc, cand), was);
    StillDisplaces(sc, Score(sc, cand), was, best0, first);
    SuffixIsPattern(net, mode, root, preds, |preds| + 1 - low);
    SuffixIsOffered(net, mode, root, preds, low);
  }

  /** One pattern: passed over if it was tried, flagged if it is forbidden, taken if it beats the choice. */
  method WeighSize(nw: Lgkntwk, root: nat, sc: Scale, cand: seq<nat>, best: Attraction) returns (taken: bool)
    requires root < |nw.tried| && 1 <= |cand| <= |nw.tried[root]|
    modifies nw`tried
    ensures nw.tried == if !old(nw.tried[root][|cand| - 1]) && Forbids(sc, cand)
                        then old(nw.tried)[root := old(nw.tried[root])[|cand| - 1 := true]] else old(nw.tried)
    ensures taken ==>
      !old(nw.tried[root][|cand| - 1]) && !Forbids(sc, cand) && Displaces(sc, Score(sc, cand), best)
        && nw.tried == old(nw.tried)
      && NotBetter(sc, Score(sc, cand), Score(sc, cand))
    ensures !taken ==> old(nw.tried[root][|cand| - 1]) || Forbids(sc, cand) || NotBetter(sc, Score(sc, cand), best)
  {
    hide Score, Forbids, Displaces, NotBetter;
    taken := false;
    if !nw.tried[root][|cand| - 1] {
      if Forbids(sc, cand) {
        var row := nw.tried[root][|cand| - 1 := true];
        nw.tried := nw.tried[root := row];
      } else {
        Displaced(sc, Score(sc, cand), best);
        taken := Displaces(sc, Score(sc, cand), best);
      }
    }
  }

  lemma UnweighedYet(sc: Scale, was: seq<bool>, row: seq<bool>, all: seq<nat>, top: nat, low: nat, best: Attraction)
    requires 0 < low <= top <= |all| <= |was| == |row| && WeighedDown(sc, was, row, all, top, low, best)
    ensures row[low - 1] == was[low - 1]
  {
  }

  lemma StillDisplaces(sc: Scale, a: Attraction, best: Attraction, best0: Attraction, first: bool)
    requires Displaces(sc, a, best) && if first then best == best0 else Displaces(sc, best, best0)
    ensures Displaces(sc, a, best0)
  {
  }

  lemma SuffixIsOffered(net: Netlist, mode: MemberType, root: nat, preds: seq<nat>, t: nat)
    requires NetOk(net) && net.IsGate(root) && root < |net.mapped| && !net.mapped[root]
      && SortedPreds(net, mode, root, preds)
    requires 0 < t <= |preds| + 1
    ensures Offered(net, mode, (preds + [root])[|preds| + 1 - t..], preds)
  {
    hide SortedPreds, Prepared;
    SuffixSplits(preds, root, |preds| + 1 - t);
  }

  lemma GrowsOne(a: seq<seq<bool>>, b: seq<seq<bool>>, root: nat, t: nat)
    requires TriedGrows(a, b) && root < |b| && t < |b[root]|
    ensures TriedGrows(a, b[root := b[root][t := true]])
  {
  }

  lemma PredsFew(net: Net, mode: MemberType, root: nat, preds: seq<nat>)
    requires NetOk(net) && root < net.Size() && SortedPreds(net, mode, root, preds)
    ensures |preds| <= |net.ins[root]|
  {
  }

  lemma PatternIgnoresTried(a: Net, b: Net, mode: MemberType, members: seq<nat>)
    requires NetOk(a) && NetOk(b) && b == a.(tried := b.tried) && PatternOf(a, mode, members)
    ensures PatternOf(b, mode, members)
  {
    hide Agree, TopoOrdered;
    var root := members[|members| - 1];
    SatPredsIgnoresTried(a, b, mode, root, |a.ins[root]|);
  }

  lemma {:induction false} SatPredsIgnoresTried(a: Net, b: Net, mode: MemberType, root: nat, n: nat)
    requires NetOk(a) && NetOk(b) && b == a.(tried := b.tried) && root < a.Size() && n <= |a.ins[root]|
    ensures SatPreds(a, mode, root, n) == SatPreds(b, mode, root, n)
  {
    hide Agree;
    if n != 0 {
      SatPredsIgnoresTried(a, b, mode, root, n - 1);
    }
  }

  lemma TriedKeepsPrepared(net: Netlist, tried: seq<seq<bool>>)
    requires |tried| == |net.tried|
    ensures Prepared(net.(tried := tried)) && NetOk(net.(tried := tried)) && NetOk(net)
    ensures LatchesDriven(net) ==> LatchesDriven(net.(tried := tried))
    ensures Following(net) ==> Following(net.(tried := tried))
  {
    hide Agree, ListsOk, Acyclic;
    PlacedPrepared(net, net.(tried := tried));
  }

  lemma GrowsShape(net: Net, tried: seq<seq<bool>>)
    requires Shaped(net) && TriedShape(net) && TriedGrows(net.tried, tried)
    ensures Shaped(net.(tried := tried)) && TriedShape(net.(tried := tried))
  {
    forall g: nat | g < net.Size() && net.IsGate(g) ensures |tried[g]| == |net.ins[g]| + 1 {
      assert |net.tried[g]| == |net.ins[g]| + 1;
    }
  }

  lemma GrowsTrans(a: seq<seq<bool>>, b: seq<seq<bool>>, c: seq<seq<bool>>)
    requires TriedGrows(a, b) && TriedGrows(b, c)
    ensures TriedGrows(a, c)
  {
  }

  lemma GateListed(net: Netlist, im: nat)
    requires im < |net.gates|
    ensures net.IsGate(net.gates[im]) && forall k :: 0 <= k < im ==> net.gates[k] != net.gates[im]
  {
    assert net.gates[im] in net.gates;
  }

  /** The pattern is one that has not been tried in this cell. */
  ghost predicate Untried(tried: seq<seq<bool>>, members: seq<nat>) {
    members != [] && members[|members| - 1] < |tried| && |members| <= |tried[members[|members| - 1]]|
    && !tried[members[|members| - 1]][|members| - 1]
  }

  /** pick_pattern_fit_ble: an untried pattern that no other untried one beats, or zero when none is left
      that is not forbidden and weighs more than -1. The flags it sets are those of forbidden patterns. */
  method PickPatternFitBle(nw: Lgkntwk, ble: BleInfo, mode: MemberType, archType: nat, weigh: Weigher,
                           edgeWeight: (nat, nat) -> real, forbid: bool) returns (ptype: nat, members: seq<nat>)
    requires Prepared(nw.State()) && LatchesDriven(nw.State()) && (mode == Normal ==> Following(nw.State()))
    requires TriedShape(nw.State()) && archType >= 1
    modifies nw`tried
    ensures TriedGrows(old(nw.tried), nw.tried)
    ensures ptype == |members| <= archType
    ensures ptype > 0 ==> NetOk(nw.State()) && PatternOf(nw.State(), mode, members) && Untried(nw.tried, members)
    ensures Picked(old(nw.State()), Scale(Bare(old(nw.State())), ble.State(), weigh, forbid), mode, archType,
                   old(nw.tried), nw.tried, members)
  {
    hide Prepared, PatternOf, Offered, Considered, Following, LatchesDriven, TriedShape, TriedGrows, Shaped, NotBetter,
      Displaces, Score, Agree, ArityOk, Weighing, IsOffered, AllConsidered, Bare;
    ghost var net: Netlist := nw.State();
    PreparedNet(net);
    PreparedIsShaped(net);
    GrowsRefl(nw.tried);
    var sc := Scale(Bare(nw.State()), ble.State(), weigh, forbid);
    var best := Attraction(-1.0, 0.0);
    members := [];
    WeighingStarts(net, sc, mode, archType, best);
    for im := 0 to |nw.gates|
      invariant nw.State() == net.(tried := nw.tried) && TriedGrows(net.tried, nw.tried) && |nw.tried| == |net.tried|
      invariant Prepared(nw.State())
      invariant |members| <= archType && best == Standing(sc, members)
      invariant members != [] ==>
        PatternOf(net, mode, members) && IsOffered(net, mode, members) && Untried(nw.tried, members)
        && Displaces(sc, best, Attraction(-1.0, 0.0))
      invariant members != [] ==> exists k :: 0 <= k < im && net.gates[k] == members[|members| - 1]
      invariant Weighing(net, sc, mode, archType, nw.tried, best, im)
    {
      var root := nw.gates[im];
      GateListed(net, im);
      if nw.mapped[root] {
        WeighingOn(net, sc, mode, archType, nw.tried, best, im);
        continue;
      }
      ghost var before, was, best0 := nw.tried, members, best;
      ghost var p: Netlist := nw.State();
      RowsAhead(net, sc, mode, archType, nw.tried, best, im);
      TriedKeepsPrepared(net, nw.tried);
      GrowsShape(net, nw.tried);
      ghost var preds;
      best, members, preds := TryRoot(nw, mode, root, archType, sc, edgeWeight, best, members);
      GrowsTrans(net.tried, before, nw.tried);
      GrowsLength(before, nw.tried);
      TriedKeepsPrepared(net, nw.tried);
      WeighingNext(net, p, sc, mode, archType, before, nw.tried, best0, best, im, preds);
      if members != was {
        PatternIgnoresTried(p, net, mode, members);
        OfferedIgnoresTried(p, net, mode, members, preds);
        FirstDisplaces(sc, best, best0, was);
      }
    }
    ptype := |members|;
    AllWeighed(net, sc, mode, archType, nw.tried, best);
    if members != [] {
      TriedKeepsPrepared(net, nw.tried);
      PatternIgnoresTried(net, nw.State(), mode, members);
    }
  }

  /** What the answer says, about the network before the call: flags change for unmapped gates only; every
      pattern of every unmapped gate within the size limit has been weighed against the answer; and the
      answer itself is one of them and beats having none. */
  ghost predicate Picked(net: Net, sc: Scale, mode: MemberType, archType: nat, was: seq<seq<bool>>,
      now: seq<seq<bool>>, members: seq<nat>)
  {
    && NetOk(net) && |was| == |now| == net.Size()
    && (forall g: nat :: g < net.Size() && !(net.IsGate(g) && !net.mapped[g]) ==> now[g] == was[g])
    && (forall g: nat :: g < net.Size() && net.IsGate(g) && !net.mapped[g] ==>
          AllConsidered(net, sc, mode, archType, was[g], now[g], Standing(sc, members), g))
    && (members != [] ==>
          IsOffered(net, mode, members) && Untried(now, members)
            && Displaces(sc, Score(sc, members), Attraction(-1.0, 0.0)))
  }

  /** The state of the scan before gate im. */
  ghost predicate Weighing(net: Netlist, sc: Scale, mode: MemberType, archType: nat, now: seq<seq<bool>>,
      best: Attraction, im: nat)
    requires im <= |net.gates|
  {
    && NetOk(net) && |net.tried| == |now| == net.Size()
    && (forall g: nat :: g < net.Size() && (net.mapped[g] || g !in net.gates[..im]) ==> now[g] == net.tried[g])
    && (forall g: nat :: g < net.Size() && !net.mapped[g] && g in net.gates[..im] ==>
          AllConsidered(net, sc, mode, archType, net.tried[g], now[g], best, g))
  }

  lemma WeighingStarts(net: Netlist, sc: Scale, mode: MemberType, archType: nat, best: Attraction)
    ensures Weighing(net, sc, mode, archType, net.tried, best, 0)
  {
    hide AllConsidered, Agree, ArityOk, ListsOk, Acyclic;
    assert net.gates[..0] == [];
  }

  lemma WeighingOn(net: Netlist, sc: Scale, mode: MemberType, archType: nat, now: seq<seq<bool>>, best: Attraction,
      im: nat)
    requires im < |net.gates| && Weighing(net, sc, mode, archType, now, best, im)
    requires net.gates[im] < |net.mapped| && net.mapped[net.gates[im]]
    ensures Weighing(net, sc, mode, archType, now, best, im + 1)
  {
    hide AllConsidered, Agree, ArityOk, ListsOk, Acyclic;
    assert net.gates[..im + 1] == net.gates[..im] + [net.gates[im]];
  }

  lemma RowsAhead(net: Netlist, sc: Scale, mode: MemberType, archType: nat, now: seq<seq<bool>>, best: Attraction,
      im: nat)
    requires im < |net.gates| && Weighing(net, sc, mode, archType, now, best, im)
    ensures net.gates[im] < net.Size() && now[net.gates[im]] == net.tried[net.gates[im]]
  {
    hide AllConsidered, Agree, ArityOk, Acyclic;
    GateListed(net, im);
    assert net.gates[im] !in net.gates[..im];
  }

  lemma WeighingNext(net: Netlist, p: Netlist, sc: Scale, mode: MemberType, archType: nat, before: seq<seq<bool>>,
      now: seq<seq<bool>>, best0: Attraction, best: Attraction, im: nat, preds: seq<nat>)
    requires im < |net.gates| && Weighing(net, sc, mode, archType, before, best0, im)
    requires p == net.(tried := before) && NetOk(p) && net.gates[im] < net.Size() && |now| == |before|
    requires !net.mapped[net.gates[im]] && before[net.gates[im]] == net.tried[net.gates[im]]
    requires Considered(p, sc, mode, archType, before[net.gates[im]], now[net.gates[im]], best, net.gates[im], preds)
    requires forall g :: 0 <= g < |now| && g != net.gates[im] ==> now[g] == before[g]
    requires forall c :: NotBetter(sc, c, best0) ==> NotBetter(sc, c, best)
    ensures Weighing(net, sc, mode, archType, now, best, im + 1)
  {
    hide Considered, Agree, ArityOk, ListsOk, Acyclic, NotBetter;
    var root := net.gates[im];
    assert net.gates[..im + 1] == net.gates[..im] + [root];
    forall g: nat | g < net.Size() && !net.mapped[g] && g in net.gates[..im + 1]
      ensures AllConsidered(net, sc, mode, archType, net.tried[g], now[g], best, g)
    {
      if g == root {
        ConsideredHere(net, p, sc, mode, archType, now[root], best, root, preds);
      } else {
        ConsideredLater(net, sc, mode, archType, net.tried[g], now[g], best0, best, g);
      }
    }
  }

  lemma ConsideredHere(net: Net, p: Net, sc: Scale, mode: MemberType, archType: nat, row: seq<bool>, best: Attraction,
      g: nat, preds: seq<nat>)
    requires NetOk(net) && NetOk(p) && p == net.(tried := p.tried) && g < net.Size() && g < |net.tried|
    requires Considered(p, sc, mode, archType, net.tried[g], row, best, g, preds)
    ensures AllConsidered(net, sc, mode, archType, net.tried[g], row, best, g)
  {
    hide WeighedDown, Agree, ArityOk, TopoOrdered, SatPreds;
    SatPredsIgnoresTried(p, net, mode, g, |net.ins[g]|);
    assert Considered(net, sc, mode, archType, net.tried[g], row, best, g, preds);
  }

  lemma ConsideredLater(net: Net, sc: Scale, mode: MemberType, archType: nat, was: seq<bool>, row: seq<bool>,
      best: Attraction, now: Attraction, g: nat)
    requires NetOk(net) && g < net.Size() && AllConsidered(net, sc, mode, archType, was, row, best, g)
    requires forall c :: NotBetter(sc, c, best) ==> NotBetter(sc, c, now)
    ensures AllConsidered(net, sc, mode, archType, was, row, now, g)
  {
    hide WeighedDown, Agree, ArityOk, SortedPreds, NotBetter;
    var preds :| Considered(net, sc, mode, archType, was, row, best, g, preds);
    WeighedLater(sc, was, row, preds + [g], Limit(archType, preds + [g]), 0, best, now);
    assert Considered(net, sc, mode, archType, was, row, now, g, preds);
  }

  lemma AllWeighed(net: Netlist, sc: Scale, mode: MemberType, archType: nat, now: seq<seq<bool>>, best: Attraction)
    requires Weighing(net, sc, mode, archType, now, best, |net.gates|)
    ensures forall g: nat :: g < net.Size() && !(net.IsGate(g) && !net.mapped[g]) ==> now[g] == net.tried[g]
    ensures forall g: nat :: g < net.Size() && net.IsGate(g) && !net.mapped[g] ==>
      AllConsidered(net, sc, mode, archType, net.tried[g], now[g], best, g)
  {
    hide AllConsidered, Agree, ArityOk, Acyclic;
    assert net.gates[..|net.gates|] == net.gates;
    assert forall g: nat :: net.IsGate(g) <==> g in net.gates;
  }

  lemma FirstDisplaces(sc: Scale, best: Attraction, best0: Attraction, was: seq<nat>)
    requires Displaces(sc, best, best0) && best0 == Standing(sc, was)
    requires was != [] ==> Displaces(sc, best0, Attraction(-1.0, 0.0))
    ensures Displaces(sc, best, Attraction(-1.0, 0.0))
  {
  }

  lemma OfferedIgnoresTried(a: Net, b: Net, mode: MemberType, members: seq<nat>, preds: seq<nat>)
    requires NetOk(a) && NetOk(b) && b == a.(tried := b.tried) && Offered(a, mode, members, preds)
    ensures Offered(b, mode, members, preds) && IsOffered(b, mode, members)
  {
    hide Agree, ArityOk, TopoOrdered, SatPreds;
    var root := members[|members| - 1];
    SatPredsIgnoresTried(a, b, mode, root, |a.ins[root]|);
  }

  lemma PreparedIsShaped(net: Netlist)
    ensures Shaped(net) && |net.mapped| == |net.tried| == |net.ins| == net.Size()
  {
  }

  lemma GrowsRefl(tried: seq<seq<bool>>)
    ensures TriedGrows(tried, tried)
  {
  }

  lemma GrowsLength(a: seq<seq<bool>>, b: seq<seq<bool>>)
    requires TriedGrows(a, b)
    ensures |a| == |b|
  {
  }
}
