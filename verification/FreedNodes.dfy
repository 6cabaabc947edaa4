/** Taking nodes that nobody needs out of the network. */
module FreedNodes {
  import opened Seqs
  import opened LogicNetwork
  import opened NetworkPasses
  import opened PackRun

  /** r is net with the nodes of dead freed, their pins gone, and the edge lists still in agreement. */
  ghost predicate Frees(net: Net, r: Net, dead: set<nat>) {
    && NetOk(net) && NetOk(r) && r.Size() == net.Size()
    && (forall n: nat :: n < net.Size() ==> r.kind[n] == if n in dead then Freed else net.kind[n])
    && (forall n: nat :: n < net.Size() ==> r.ins[n] == if n in dead then [] else net.ins[n])
  }

  /** The fan-out is what it was without the freed nodes. */
  lemma FreedFanout(net: Net, r: Net, dead: set<nat>, n: nat, v: nat)
    requires Frees(net, r, dead) && n < net.Size()
    ensures v in r.outs[n] <==> v in net.outs[n] && v !in dead
  {
    hide Agree, ArityOk;
    if v < net.Size() {
      EdgeBothWays(net, n, v);
      EdgeBothWays(r, n, v);
    }
  }

  lemma FreedNoFanout(net: Net, r: Net, dead: set<nat>, n: nat)
    requires Frees(net, r, dead) && n < net.Size()
    ensures r.outs[n] == [] <==> forall i :: 0 <= i < |net.outs[n]| ==> net.outs[n][i] in dead
  {
    hide Agree, ArityOk;
    if r.outs[n] == [] {
      forall i | 0 <= i < |net.outs[n]| ensures net.outs[n][i] in dead {
        FreedFanout(net, r, dead, n, net.outs[n][i]);
      }
    } else {
      FreedFanout(net, r, dead, n, r.outs[n][0]);
    }
  }

  /** No node that stays reads a freed one. */
  lemma FreedUnread(net: Net, r: Net, dead: set<nat>, n: nat, i: nat)
    requires Frees(net, r, dead) && n < net.Size() && n !in dead && i < |net.ins[n]|
    ensures net.ins[n][i] !in dead
  {
    EdgeBothWays(r, net.ins[n][i], n);
  }

  lemma {:induction false} FreedValue(net: Net, r: Net, dead: set<nat>, rk: seq<nat>, g: GateFun, env: nat -> bool,
      n: nat)
    requires Frees(net, r, dead) && Ranked(net, rk) && Ranked(r, rk) && n < net.Size() && n !in dead
    ensures Val(r, rk, g, env, n) == Val(net, rk, g, env, n)
    decreases rk[n]
  {
    hide Agree;
    if Comb(net.kind[n]) {
      forall i | 0 <= i < |net.ins[n]| ensures Val(r, rk, g, env, r.ins[n][i]) == Val(net, rk, g, env, net.ins[n][i]) {
        FreedUnread(net, r, dead, n, i);
        FreedValue(net, r, dead, rk, g, env, net.ins[n][i]);
      }
      if net.kind[n] == Gate {
        assert seq(|net.ins[n]|, i requires 0 <= i < |net.ins[n]| => Val(net, rk, g, env, net.ins[n][i]))
            == seq(|r.ins[n]|, i requires 0 <= i < |r.ins[n]| => Val(r, rk, g, env, r.ins[n][i]));
      }
    }
  }

  lemma FreedRanked(net: Net, r: Net, dead: set<nat>, rk: seq<nat>)
    requires Frees(net, r, dead) && Ranked(net, rk)
    ensures Ranked(r, rk)
  {
    hide Agree, ArityOk;
  }

  lemma FreedPoint(net: Net, r: Net, dead: set<nat>, rk: seq<nat>, rk': seq<nat>, g: GateFun, env: nat -> bool, n: nat)
    requires Frees(net, r, dead) && Ranked(net, rk) && Ranked(r, rk') && n < net.Size() && n !in dead
    ensures Val(net, rk, g, env, n) == Val(r, rk', g, env, n)
    ensures Sampled(net, rk, g, env, n) == Sampled(r, rk', g, env, n)
  {
    hide Val, Agree;
    FreedRanked(net, r, dead, rk);
    FreedValue(net, r, dead, rk, g, env, n);
    SampledIgnoresRanking(r, rk, rk', g, env, n);
    if net.kind[n] == Latch {
      FreedUnread(net, r, dead, n, 0);
      FreedValue(net, r, dead, rk, g, env, net.ins[n][0]);
    }
  }

  /** Every node that stays computes what it did. */
  lemma FreedMeaning(net: Net, r: Net, dead: set<nat>)
    requires Frees(net, r, dead)
    ensures KeepsMeaning(net, r)
  {
    hide Val, Agree, ArityOk, Sampled, Ranked;
    forall rk | Ranked(net, rk) ensures Ranked(r, rk) {
      FreedRanked(net, r, dead, rk);
    }
    forall rk, rk', g: GateFun, env: nat -> bool, n: nat
      | Ranked(net, rk) && Ranked(r, rk') && n < net.Size() && r.kind[n] != Freed
      ensures Val(net, rk, g, env, n) == Val(r, rk', g, env, n)
      ensures Sampled(net, rk, g, env, n) == Sampled(r, rk', g, env, n)
    {
      assert n !in dead;
      FreedPoint(net, r, dead, rk, rk', g, env, n);
    }
  }

  lemma FreesNothing(net: Net)
    requires NetOk(net)
    ensures Frees(net, net, {})
  {
  }

  lemma FreesTrans(a: Net, b: Net, c: Net, dead: set<nat>, more: set<nat>)
    requires Frees(a, b, dead) && Frees(b, c, more)
    ensures Frees(a, c, dead + more)
  {
    hide NetOk;
  }
}
