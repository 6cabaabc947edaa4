/** Removal of ports that connect to nothing (remove_isolated_pi_lgkntwk, remove_isolated_po_lgkntwk). */
module PortCleanup {
  import opened Seqs
  import opened LogicNetwork
  import opened NetworkPasses
  import opened LgkntwkEdits
  import opened PackRun
  import opened FreedNodes

  /** The ports of s that have an edge. */
  function Connected(edges: seq<seq<nat>>, s: seq<nat>): seq<nat> {
    if s == [] then []
    else
      var k := |s| - 1;
      Connected(edges, s[..k]) + if Lonely(edges, s[k]) then [] else [s[k]]
  }

  predicate Lonely(edges: seq<seq<nat>>, n: nat) { n < |edges| && edges[n] == [] }

  function FreePorts(net: Net, idle: set<nat>): Net {
    net.(kind := seq(net.Size(), n requires 0 <= n < net.Size() => if n in idle then Freed else net.kind[n]))
  }

  /** The primary inputs that drive nothing. */
  function IdlePis(net: Net): set<nat> {
    set n: nat | n < net.Size() && net.kind[n] == Pi && Lonely(net.outs, n)
  }

  lemma ConnectedNext(edges: seq<seq<nat>>, s: seq<nat>, k: nat)
    requires k < |s|
    ensures Connected(edges, s[..k + 1]) == if Lonely(edges, s[k]) then Connected(edges, s[..k])
      else Connected(edges, s[..k]) + [s[k]]
  {
    hide Lonely;
    assert s[..k + 1][..k] == s[..k];
  }

  lemma {:induction false} ConnectedIn(edges: seq<seq<nat>>, s: seq<nat>, n: nat)
    ensures n in Connected(edges, s) <==> n in s && !Lonely(edges, n)
  {
    hide Lonely;
    if s != [] {
      ConnectedIn(edges, s[..|s| - 1], n);
      assert s == s[..|s| - 1] + [s[|s| - 1]];
    }
  }

  lemma {:induction false} AllConnected(edges: seq<seq<nat>>, s: seq<nat>)
    requires forall i :: 0 <= i < |s| ==> !Lonely(edges, s[i])
    ensures Connected(edges, s) == s
  {
    hide Lonely;
    if s != [] {
      AllConnected(edges, s[..|s| - 1]);
      assert s == s[..|s| - 1] + [s[|s| - 1]];
    }
  }

  /** The ports of s that have no edge. */
  function LonelyOf(edges: seq<seq<nat>>, s: seq<nat>): (r: set<nat>) { set n | n in s && Lonely(edges, n) }

  lemma LonelyNext(edges: seq<seq<nat>>, s: seq<nat>, k: nat)
    requires k < |s|
    ensures LonelyOf(edges, s[..k + 1]) == LonelyOf(edges, s[..k]) + if Lonely(edges, s[k]) then {s[k]} else {}
  {
    hide Lonely;
    assert s[..k + 1] == s[..k] + [s[k]];
  }

  lemma LonelyEnds(edges: seq<seq<nat>>, s: seq<nat>, k: nat)
    ensures LonelyOf(edges, s[..0]) == {} && (k == |s| ==> LonelyOf(edges, s[..k]) == LonelyOf(edges, s))
  {
    hide Lonely;
    if k == |s| {
      assert s[..k] == s;
    }
  }

  /** The loop both passes share: a port without edges leaves the list and is freed. */
  method RemoveIsolated(nw: Lgkntwk, edges: seq<seq<nat>>, ports0: seq<nat>) returns (ports: seq<nat>)
    requires |edges| == |nw.kind| && forall i :: 0 <= i < |ports0| ==> ports0[i] < |nw.kind|
    modifies nw`kind
    ensures ports == Connected(edges, ports0)
    ensures nw.kind == FreePorts(old(nw.State()), LonelyOf(edges, ports0)).kind
  {
    hide Connected, Lonely, LonelyOf;
    ghost var net := nw.State();
    ports := ports0;
    var im := 0;
    ghost var k := 0;
    ConnectedNone(edges, ports0);
    LonelyEnds(edges, ports0, 0);
    while im < |ports|
      invariant 0 <= k <= |ports0| && im == |Connected(edges, ports0[..k])| && |nw.kind| == |net.kind|
      invariant ports == Connected(edges, ports0[..k]) + ports0[k..]
      invariant nw.kind == FreePorts(net, LonelyOf(edges, ports0[..k])).kind
      decreases |ports| - im
    {
      IsolatedStep(edges, ports0, k, ports, im);
      LonelyNext(edges, ports0, k);
      var n := ports[im];
      if edges[n] == [] {
        nw.kind := nw.kind[n := Freed];
        ports := ports[..im] + ports[im + 1..];
      } else {
        im := im + 1;
      }
      k := k + 1;
    }
    AllSeen(edges, ports0, k, im, ports);
    LonelyEnds(edges, ports0, k);
  }

  lemma AllSeen(edges: seq<seq<nat>>, ports0: seq<nat>, k: nat, im: nat, ports: seq<nat>)
    requires k <= |ports0| && ports == Connected(edges, ports0[..k]) + ports0[k..]
    requires |ports| <= im == |Connected(edges, ports0[..k])|
    ensures k == |ports0| && ports == Connected(edges, ports0)
  {
    hide Connected;
    assert ports0[..|ports0|] == ports0;
  }

  lemma ConnectedNone(edges: seq<seq<nat>>, s: seq<nat>)
    ensures Connected(edges, s[..0]) + s[0..] == s && |Connected(edges, s[..0])| == 0
  {
  }

  lemma IsolatedStep(edges: seq<seq<nat>>, ports0: seq<nat>, k: nat, ports: seq<nat>, im: nat)
    requires k <= |ports0| && ports == Connected(edges, ports0[..k]) + ports0[k..]
    requires im == |Connected(edges, ports0[..k])| && im < |ports|
    ensures k < |ports0| && ports[im] == ports0[k]
      && (ports[im] < |edges| ==> (Lonely(edges, ports[im]) <==> edges[ports[im]] == []))
    ensures var next := if Lonely(edges, ports[im]) then ports[..im] + ports[im + 1..] else ports;
      next == Connected(edges, ports0[..k + 1]) + ports0[k + 1..]
    ensures |Connected(edges, ports0[..k + 1])| == if Lonely(edges, ports[im]) then im else im + 1
  {
    hide Connected;
    ConnectedNext(edges, ports0, k);
    DropAfter(Connected(edges, ports0[..k]), ports0, k);
    assert ports0[k..] == [ports0[k]] + ports0[k + 1..];
  }

  /** remove_isolated_pi_lgkntwk */
  method RemoveIsolatedPis(nw: Lgkntwk, pis0: seq<nat>) returns (pis: seq<nat>)
    requires Shaped(nw.State()) && forall n: nat :: n in pis0 <==> n < |nw.kind| && nw.kind[n] == Pi
    modifies nw`kind
    ensures nw.State() == FreePorts(old(nw.State()), IdlePis(old(nw.State())))
    ensures pis == Connected(nw.outs, pis0) && forall n: nat :: n in pis <==> n < |nw.kind| && nw.kind[n] == Pi
  {
    ghost var net := nw.State();
    assert forall i :: 0 <= i < |pis0| ==> pis0[i] in pis0;
    pis := RemoveIsolated(nw, nw.outs, pis0);
    assert LonelyOf(net.outs, pis0) == IdlePis(net);
    forall n: nat ensures n in pis <==> n in pis0 && !Lonely(net.outs, n) {
      ConnectedIn(net.outs, pis0, n);
    }
  }

  /** remove_isolated_po_lgkntwk; an output port of a network in order has its driver, so none goes. */
  method RemoveIsolatedPos(nw: Lgkntwk, pos0: seq<nat>) returns (pos: seq<nat>)
    requires NetOk(nw.State()) && forall n: nat :: n in pos0 <==> n < |nw.kind| && nw.kind[n] == Po
    modifies nw`kind
    ensures nw.State() == old(nw.State()) && pos == pos0
  {
    ghost var net := nw.State();
    assert forall i :: 0 <= i < |pos0| ==> pos0[i] in pos0;
    pos := RemoveIsolated(nw, nw.ins, pos0);
    PosAreDriven(net, pos0);
  }

  lemma PosAreDriven(net: Net, pos: seq<nat>)
    requires NetOk(net) && forall n: nat :: n in pos <==> n < net.Size() && net.kind[n] == Po
    ensures Connected(net.ins, pos) == pos
    ensures FreePorts(net, LonelyOf(net.ins, pos)).kind == net.kind
  {
    hide Agree;
    forall n | n in pos ensures !Lonely(net.ins, n) {
      assert ArityOk(net.kind[n], net.ins[n], net.outs[n]);
    }
    assert forall i :: 0 <= i < |pos| ==> pos[i] in pos;
    AllConnected(net.ins, pos);
  }

  /** Nothing read the freed inputs, so every node that stays computes what it did. */
  lemma FreePisIsSound(net: Netlist)
    ensures var r := FreePorts(net, IdlePis(net)); Frees(net, r, IdlePis(net)) && KeepsMeaning(net, r) && Prepared(r)
  {
    hide KeepsMeaning, Acyclic, IdlePis;
    FreePisFrees(net);
    var r := FreePorts(net, IdlePis(net));
    FreedMeaning(net, r, IdlePis(net));
    MeaningKeepsAcyclic(net, r);
    FreePisLists(net);
  }

  lemma MeaningKeepsAcyclic(a: Net, b: Net)
    requires KeepsMeaning(a, b) && Acyclic(a)
    ensures Acyclic(b)
  {
    hide SameValues, Agree, ArityOk, Ranked;
  }

  lemma FreePisFrees(net: Netlist)
    ensures Frees(net, FreePorts(net, IdlePis(net)), IdlePis(net))
  {
    hide Acyclic, ListsOk;
    var r := FreePorts(net, IdlePis(net));
    forall u: nat, v: nat | u < r.Size() && v < r.Size() ensures Count(r.outs[u], v) == Count(r.ins[v], u) {
      assert Count(net.outs[u], v) == Count(net.ins[v], u);
    }
    forall n | 0 <= n < net.Size() ensures ArityOk(r.kind[n], r.ins[n], r.outs[n]) {
      assert ArityOk(net.kind[n], net.ins[n], net.outs[n]);
    }
  }

  lemma FreePisLists(net: Netlist)
    ensures ListsOk(FreePorts(net, IdlePis(net)))
  {
    hide NetOk, Acyclic;
    var r := FreePorts(net, IdlePis(net));
    forall n: nat ensures (r.IsGate(n) <==> net.IsGate(n)) && (r.IsLatch(n) <==> net.IsLatch(n)) {
    }
  }
}
