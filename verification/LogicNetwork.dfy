/** The logic network: nodes with ordered inputs and a fan-out list, and what they compute. */
module LogicNetwork {
  import opened Seqs

  /** Freed is the kind of a node whose memory the source has returned. */
  datatype Kind = Gate | Buf | Latch | Pi | Po | Freed

  /** Nodes are numbered. list is the linked list of gates, gates the array beside it (libgate_ptrs). */
  datatype Net = Net(
    kind: seq<Kind>,
    ins: seq<seq<nat>>,
    outs: seq<seq<nat>>,
    mapped: seq<bool>,
    bleOf: seq<int>,
    cellOf: seq<int>,
    tried: seq<seq<bool>>,
    list: seq<nat>,
    gates: seq<nat>,
    latches: seq<nat>)
  {
    function Size(): nat { |kind| }

    predicate IsGate(n: nat) { n < |kind| && (kind[n] == Gate || kind[n] == Buf) }

    predicate IsLatch(n: nat) { n < |kind| && kind[n] == Latch }
  }

  ghost predicate Shaped(net: Net) {
    && |net.ins| == |net.outs| == |net.mapped| == |net.bleOf| == |net.cellOf| == |net.tried| == net.Size()
    && (forall n, i :: 0 <= n < net.Size() && 0 <= i < |net.ins[n]| ==> net.ins[n][i] < net.Size())
    && (forall n, i :: 0 <= n < net.Size() && 0 <= i < |net.outs[n]| ==> net.outs[n][i] < net.Size())
  }

  /** The fan-in and fan-out lists describe the same edges, counted with multiplicity. */
  ghost predicate Agree(net: Net)
    requires Shaped(net)
  {
    forall u: nat, v: nat :: u < net.Size() && v < net.Size() ==> Count(net.outs[u], v) == Count(net.ins[v], u)
  }

  predicate ArityOk(k: Kind, ins: seq<nat>, outs: seq<nat>) {
    match k
    case Gate => true
    case Buf => |ins| == 1
    case Latch => |ins| == 1
    case Pi => ins == []
    case Po => |ins| == 1 && outs == []
    case Freed => ins == [] && outs == []
  }

  ghost predicate NetOk(net: Net) {
    && Shaped(net)
    && Agree(net)
    && forall n {:trigger net.ins[n]} {:trigger net.outs[n]} ::
         0 <= n < net.Size() ==> ArityOk(net.kind[n], net.ins[n], net.outs[n])
  }

  lemma EdgeBothWays(net: Net, u: nat, v: nat)
    requires Shaped(net) && Agree(net) && u < net.Size() && v < net.Size()
    ensures v in net.outs[u] <==> u in net.ins[v]
  {
    CountPositive(net.outs[u], v);
    CountPositive(net.ins[v], u);
  }

  /** A node whose value is computed from its inputs; latches and primary inputs are sources. */
  predicate Comb(k: Kind) { k == Gate || k == Buf || k == Po }

  /** rk witnesses that the combinational part has no cycle. */
  ghost predicate Ranked(net: Net, rk: seq<nat>)
    requires Shaped(net)
  {
    |rk| == net.Size()
    && forall v, i :: 0 <= v < net.Size() && Comb(net.kind[v]) && 0 <= i < |net.ins[v]| ==> rk[net.ins[v][i]] < rk[v]
  }

  ghost predicate Acyclic(net: Net)
    requires Shaped(net)
  {
    exists rk :: Ranked(net, rk)
  }

  /** Gates are opaque functions of their ordered inputs. */
  type GateFun = (nat, seq<bool>) -> bool

  /** The value of node n when env gives the primary inputs and latch outputs. */
  ghost function Val(net: Net, rk: seq<nat>, g: GateFun, env: nat -> bool, n: nat): bool
    requires NetOk(net) && Ranked(net, rk) && n < net.Size()
    decreases rk[n]
  {
    match net.kind[n]
    case Gate => g(n, seq(|net.ins[n]|, i requires 0 <= i < |net.ins[n]| => Val(net, rk, g, env, net.ins[n][i])))
    case Buf => Val(net, rk, g, env, net.ins[n][0])
    case Po => Val(net, rk, g, env, net.ins[n][0])
    case Latch => env(n)
    case Pi => env(n)
    case Freed => false
  }

  /** What a node passes on: its own value, or for a latch the value at its data input. */
  ghost function Sampled(net: Net, rk: seq<nat>, g: GateFun, env: nat -> bool, n: nat): bool
    requires NetOk(net) && Ranked(net, rk) && n < net.Size()
  {
    if net.kind[n] == Latch then Val(net, rk, g, env, net.ins[n][0]) else Val(net, rk, g, env, n)
  }

  /** The value does not depend on which ranking shows that it is well defined. */
  lemma {:induction false} ValIgnoresRanking(net: Net, rk: seq<nat>, rk': seq<nat>, g: GateFun, env: nat -> bool,
      n: nat)
    requires NetOk(net) && Ranked(net, rk) && Ranked(net, rk') && n < net.Size()
    ensures Val(net, rk, g, env, n) == Val(net, rk', g, env, n)
    decreases rk[n]
  {
    if Comb(net.kind[n]) {
      forall i | 0 <= i < |net.ins[n]|
        ensures Val(net, rk, g, env, net.ins[n][i]) == Val(net, rk', g, env, net.ins[n][i])
      {
        ValIgnoresRanking(net, rk, rk', g, env, net.ins[n][i]);
      }
      if net.kind[n] == Gate {
        assert seq(|net.ins[n]|, i requires 0 <= i < |net.ins[n]| => Val(net, rk, g, env, net.ins[n][i]))
            == seq(|net.ins[n]|, i requires 0 <= i < |net.ins[n]| => Val(net, rk', g, env, net.ins[n][i]));
      }
    }
  }

  lemma SampledIgnoresRanking(net: Net, rk: seq<nat>, rk': seq<nat>, g: GateFun, env: nat -> bool, n: nat)
    requires NetOk(net) && Ranked(net, rk) && Ranked(net, rk') && n < net.Size()
    ensures Val(net, rk, g, env, n) == Val(net, rk', g, env, n)
    ensures Sampled(net, rk, g, env, n) == Sampled(net, rk', g, env, n)
  {
    ValIgnoresRanking(net, rk, rk', g, env, n);
    if net.kind[n] == Latch {
      ValIgnoresRanking(net, rk, rk', g, env, net.ins[n][0]);
    }
  }

  /** after computes, at every node of before that it still has, what before computed there. */
  ghost predicate SameMeaning(before: Net, after: Net)
    requires NetOk(before) && NetOk(after)
  {
    && before.Size() <= after.Size()
    && (Acyclic(before) ==> Acyclic(after))
    && (forall n :: 0 <= n < before.Size() && after.kind[n] != Freed ==> after.kind[n] == before.kind[n])
    && SameValues(before, after)
  }

  ghost predicate SameValues(before: Net, after: Net)
    requires NetOk(before) && NetOk(after) && before.Size() <= after.Size()
  {
    forall rk, rk', g: GateFun, env: nat -> bool, n: nat ::
      Ranked(before, rk) && Ranked(after, rk') && n < before.Size() && after.kind[n] != Freed
      ==> Val(before, rk, g, env, n) == Val(after, rk', g, env, n)
          && Sampled(before, rk, g, env, n) == Sampled(after, rk', g, env, n)
  }

  lemma SameMeaningRefl(net: Net)
    requires NetOk(net)
    ensures SameMeaning(net, net)
  {
    forall rk, rk', g: GateFun, env: nat -> bool, n: nat | Ranked(net, rk) && Ranked(net, rk') && n < net.Size()
      ensures Val(net, rk, g, env, n) == Val(net, rk', g, env, n)
      ensures Sampled(net, rk, g, env, n) == Sampled(net, rk', g, env, n)
    {
      SampledIgnoresRanking(net, rk, rk', g, env, n);
    }
  }

  lemma SameMeaningTrans(a: Net, b: Net, c: Net)
    requires NetOk(a) && NetOk(b) && NetOk(c)
    requires SameMeaning(a, b) && SameMeaning(b, c)
    ensures SameMeaning(a, c)
  {
    hide Val, Sampled, Agree, ArityOk, Ranked;
    forall rk, rk', g: GateFun, env: nat -> bool, n: nat
      | Ranked(a, rk) && Ranked(c, rk') && n < a.Size() && c.kind[n] != Freed
      ensures Val(a, rk, g, env, n) == Val(c, rk', g, env, n)
      ensures Sampled(a, rk, g, env, n) == Sampled(c, rk', g, env, n)
    {
      assert Acyclic(a);
      var mid :| Ranked(b, mid);
      assert Val(a, rk, g, env, n) == Val(b, mid, g, env, n);
      assert Val(b, mid, g, env, n) == Val(c, rk', g, env, n);
    }
  }
}
