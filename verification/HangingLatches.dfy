/** Removal of latches that drive nothing (remove_hanging_latch_lgkntwk). */
module HangingLatches {
  import opened Seqs
  import opened LogicNetwork
  import opened BufferEdits
  import opened NetworkPasses
  import opened PackRun
  import opened FreedNodes

  /** The latch leaves its driver's fan-out and is freed. */
  function DropLatch(net: Net, l: nat): Net
    requires Shaped(net) && l < net.Size() && |net.ins[l]| == 1 && net.outs[net.ins[l][0]] != []
  {
    var drv := net.ins[l][0];
    var fan: seq<nat> := DropOne(net.outs[drv], l);
    net.(kind := net.kind[l := Freed], ins := net.ins[l := []], outs := net.outs[drv := fan][l := []])
  }

  ghost predicate Hanging(net: Net, l: nat)
    requires Shaped(net)
  {
    net.IsLatch(l) && net.outs[l] == []
  }

  lemma DropLatchKeepsAgreement(net: Net, l: nat)
    requires NetOk(net) && Hanging(net, l)
    ensures |net.ins[l]| == 1 && net.ins[l][0] != l && net.outs[net.ins[l][0]] != [] && NetOk(DropLatch(net, l))
  {
    var drv := net.ins[l][0];
    EdgeBothWays(net, drv, l);
    EdgeBothWays(net, l, l);
    var net' := DropLatch(net, l);
    forall n, i | 0 <= n < net.Size() && 0 <= i < |net'.outs[n]| ensures net'.outs[n][i] < net.Size() {
      if n == drv {
        DropOneIn(net.outs[drv], l, i);
        var k :| 0 <= k < |net.outs[drv]| && net.outs[drv][k] == DropOne(net.outs[drv], l)[i];
      }
    }
    forall u: nat, v: nat | u < net.Size() && v < net.Size() ensures Count(net'.outs[u], v) == Count(net'.ins[v], u) {
      assert Count(net.outs[u], v) == Count(net.ins[v], u);
      DropOneCount(net.outs[drv], l, v);
      assert net.ins[l] == [drv] && net.ins[l][1..] == [];
      assert Count(net.outs[l], v) == 0;
    }
  }

  /** Dropping a hanging latch frees it and changes no other node's value or next state. */
  lemma DropLatchKeepsMeaning(net: Net, l: nat)
    requires NetOk(net) && Hanging(net, l)
    ensures |net.ins[l]| == 1 && net.outs[net.ins[l][0]] != []
    ensures Frees(net, DropLatch(net, l), {l}) && KeepsMeaning(net, DropLatch(net, l))
  {
    hide Agree, ArityOk, KeepsMeaning;
    DropLatchKeepsAgreement(net, l);
    FreedMeaning(net, DropLatch(net, l), {l});
  }

  /** The state of the pass: latches visited so far are all kept; todo is the rest of the list. */
  ghost predicate Visiting(net: Net, kept: seq<nat>, todo: seq<nat>) {
    && NetOk(net) && Distinct(kept + todo)
    && (forall n: nat :: n in kept + todo <==> net.IsLatch(n))
  }

  /** The rest of the pass: latches of todo without fan-out when visited are dropped, in order. */
  ghost function DropFrom(net: Net, kept: seq<nat>, todo: seq<nat>): (r: Net)
    requires Visiting(net, kept, todo)
    ensures NetOk(r) && KeepsMeaning(net, r) && r.list == net.list && r.gates == net.gates && r.Size() == net.Size()
    ensures forall n: nat :: n < r.Size() && !net.IsLatch(n) ==> r.kind[n] == net.kind[n]
    ensures Distinct(r.latches) && forall n: nat :: n in r.latches <==> r.IsLatch(n)
    decreases |todo|
  {
    if todo == [] then
      var r := net.(latches := kept);
      assert kept + todo == kept;
      SameGraphMeaning(net, r);
      r
    else
      var l := todo[0];
      VisitNext(net, kept, todo);
      if net.outs[l] == [] then
        KeepsMeaningTrans(net, DropLatch(net, l), DropFrom(DropLatch(net, l), kept, todo[1..]));
        DropFrom(DropLatch(net, l), kept, todo[1..])
      else DropFrom(net, kept + [l], todo[1..])
  }

  lemma VisitNext(net: Net, kept: seq<nat>, todo: seq<nat>)
    requires Visiting(net, kept, todo) && todo != []
    ensures todo[0] < net.Size() && net.IsLatch(todo[0])
    ensures net.outs[todo[0]] == [] ==>
      |net.ins[todo[0]]| == 1 && net.ins[todo[0]][0] != todo[0] && net.outs[net.ins[todo[0]][0]] != []
      && KeepsMeaning(net, DropLatch(net, todo[0])) && Visiting(DropLatch(net, todo[0]), kept, todo[1..])
    ensures net.outs[todo[0]] != [] ==> Visiting(net, kept + [todo[0]], todo[1..])
  {
    hide Agree, ArityOk, SameMeaning, Ranked;
    var l := todo[0];
    assert (kept + todo)[|kept|] == l;
    assert l in kept + todo;
    assert kept + todo == (kept + [l]) + todo[1..];
    if net.outs[l] == [] {
      DropLatchKeepsAgreement(net, l);
      DropLatchKeepsMeaning(net, l);
      var net' := DropLatch(net, l);
      DistinctWithout(kept, todo);
      forall n: nat ensures n in kept + todo[1..] <==> net'.IsLatch(n) {
        assert n in kept + todo <==> net.IsLatch(n);
        assert n in kept + todo <==> n in kept + todo[1..] || n == l;
      }
    }
  }

  lemma DistinctWithout(kept: seq<nat>, todo: seq<nat>)
    requires Distinct(kept + todo) && todo != []
    ensures Distinct(kept + todo[1..]) && todo[0] !in kept + todo[1..]
  {
    var all := kept + todo;
    var rest := kept + todo[1..];
    forall i | 0 <= i < |rest| ensures rest[i] != todo[0] && rest[i] == if i < |kept| then all[i] else all[i + 1] {
      var z := |kept|;
      var k := if i < z then i else i + 1;
      assert all[z] == todo[0] && all[k] == rest[i];
      assert k < z ==> all[k] != all[z];
      assert z < k ==> all[z] != all[k];
    }
    forall i, j | 0 <= i < j < |rest| ensures rest[i] != rest[j] {
      var k := if i < |kept| then i else i + 1;
      var m := if j < |kept| then j else j + 1;
      assert all[k] != all[m];
    }
  }

  ghost function DropHanging(net: Netlist): Net
  {
    StartVisit(net);
    DropFrom(net, [], net.latches)
  }

  lemma StartVisit(net: Netlist)
    ensures Visiting(net, [], net.latches)
  {
    assert [] + net.latches == net.latches;
  }

  /** The pass keeps agreement, lists and meaning, and frees exactly the latches of Dropped. */
  lemma DropHangingIsSound(net: Netlist)
    ensures Prepared(DropHanging(net)) && KeepsMeaning(net, DropHanging(net))
    ensures Frees(net, DropHanging(net), Dropped(net))
    ensures forall n: nat :: n < net.Size() && !net.IsLatch(n) ==> DropHanging(net).kind[n] == net.kind[n]
  {
    hide Agree, ArityOk, Val, SameValues, DropFrom, Dropped, Frees;
    StartVisit(net);
    DropsExactly(net);
    var r := DropHanging(net);
    assert Acyclic(r);
    assert forall n: nat :: n < net.Size() && r.kind[n] != Freed ==> r.kind[n] == net.kind[n];
    forall n: nat
      ensures n in r.list <==> r.IsGate(n)
      ensures n in r.gates <==> r.IsGate(n)
    {
      assert n in net.list <==> net.IsGate(n);
      assert n in net.gates <==> net.IsGate(n);
    }
  }

  // ----- which latches go, and when the pass does what it is for

  /** The latches among the first k of the list that go, told from the network before the pass: those
      whose every reader is a latch that went earlier. */
  function DroppedFirst(net: Net, k: nat): set<nat>
    requires k <= |net.latches|
  {
    if k == 0 then {}
    else
      var before := DroppedFirst(net, k - 1);
      if OnlyRead(net, net.latches[k - 1], before) then before + {net.latches[k - 1]} else before
  }

  /** Nothing reads l but nodes of dead. */
  predicate OnlyRead(net: Net, l: nat, dead: set<nat>) {
    l < |net.outs| && forall i :: 0 <= i < |net.outs[l]| ==> net.outs[l][i] in dead
  }

  function Dropped(net: Net): set<nat> { DroppedFirst(net, |net.latches|) }

  lemma {:induction false} DropFromExactly(net: Netlist, cur: Net, kept: seq<nat>, k: nat)
    requires k <= |net.latches| && Visiting(cur, kept, net.latches[k..])
    requires Frees(net, cur, DroppedFirst(net, k))
    ensures Frees(net, DropFrom(cur, kept, net.latches[k..]), Dropped(net))
    decreases |net.latches| - k
  {
    hide Prepared, Frees, Agree, ArityOk, Distinct, DropLatch, KeepsMeaning;
    var todo := net.latches[k..];
    if k < |net.latches| {
      assert todo[0] == net.latches[k] && todo[1..] == net.latches[k + 1..];
      VisitNext(cur, kept, todo);
      ReadIsFanout(net, cur, DroppedFirst(net, k), todo[0]);
      if cur.outs[todo[0]] == [] {
        DropNext(net, cur, DroppedFirst(net, k), todo[0]);
        DropFromExactly(net, DropLatch(cur, todo[0]), kept, k + 1);
      } else {
        DropFromExactly(net, cur, kept + [todo[0]], k + 1);
      }
    } else {
      DropNone(net, cur, kept, DroppedFirst(net, k));
    }
  }

  lemma ReadIsFanout(net: Net, cur: Net, dead: set<nat>, l: nat)
    requires Frees(net, cur, dead) && l < cur.Size()
    ensures cur.outs[l] == [] <==> OnlyRead(net, l, dead)
  {
    hide Agree, ArityOk;
    FreedNoFanout(net, cur, dead, l);
  }

  lemma DropNext(net: Net, cur: Net, dead: set<nat>, l: nat)
    requires Frees(net, cur, dead) && Hanging(cur, l)
    ensures |cur.ins[l]| == 1 && cur.outs[cur.ins[l][0]] != [] && Frees(net, DropLatch(cur, l), dead + {l})
  {
    hide Agree, ArityOk, DropLatch, KeepsMeaning;
    DropLatchKeepsMeaning(cur, l);
    FreesTrans(net, cur, DropLatch(cur, l), dead, {l});
  }

  lemma DropNone(net: Net, cur: Net, kept: seq<nat>, dead: set<nat>)
    requires Visiting(cur, kept, []) && Frees(net, cur, dead)
    ensures Frees(net, DropFrom(cur, kept, []), dead)
  {
    hide Agree, ArityOk, KeepsMeaning;
  }

  /** The pass frees exactly the latches of Dropped; every other pin stays. */
  lemma DropsExactly(net: Netlist)
    ensures Frees(net, DropHanging(net), Dropped(net))
  {
    hide Frees, DropFrom, DroppedFirst, Visiting, Prepared;
    StartVisit(net);
    StartFreed(net);
    assert net.latches[0..] == net.latches;
    DropFromExactly(net, net, [], 0);
  }

  lemma StartFreed(net: Netlist)
    ensures Frees(net, net, DroppedFirst(net, 0))
  {
    FreesNothing(net);
  }

  /** A latch hangs after the pass exactly when the pass kept it and dropped all that read it. */
  lemma StillHangsExactly(net: Netlist, l: nat)
    ensures NetOk(DropHanging(net))
    ensures Hanging(DropHanging(net), l) <==> net.IsLatch(l) && l !in Dropped(net) && OnlyRead(net, l, Dropped(net))
  {
    hide Agree, ArityOk, DropHanging, Dropped, OnlyRead, Acyclic, ListsOk;
    DropsExactly(net);
    if l < net.Size() {
      ReadIsFanout(net, DropHanging(net), Dropped(net), l);
    }
  }

  /** MAIN RESULT: the pass leaves no latch hanging exactly when every latch it keeps has a reader that
      it does not drop. */
  lemma NoneHangsExactly(net: Netlist)
    ensures NetOk(DropHanging(net))
    ensures (forall l: nat :: !Hanging(DropHanging(net), l)) <==>
      forall l: nat :: net.IsLatch(l) && l !in Dropped(net) ==> !OnlyRead(net, l, Dropped(net))
  {
    hide Agree, ArityOk, DropHanging, Dropped, OnlyRead, Hanging, ListsOk, Acyclic;
    StillHangsExactly(net, 0);
    forall l: nat
      ensures Hanging(DropHanging(net), l) <==> net.IsLatch(l) && l !in Dropped(net) && OnlyRead(net, l, Dropped(net))
    {
      StillHangsExactly(net, l);
    }
  }

  /** The entries of s that are not in dead, in order. */
  function Spared(s: seq<nat>, dead: set<nat>): seq<nat> {
    if s == [] then [] else (if s[0] in dead then [] else [s[0]]) + Spared(s[1..], dead)
  }

  lemma {:induction false} DropFromLatches(net: Netlist, cur: Net, kept: seq<nat>, k: nat)
    requires k <= |net.latches| && Visiting(cur, kept, net.latches[k..])
    requires Frees(net, cur, DroppedFirst(net, k))
    ensures DropFrom(cur, kept, net.latches[k..]).latches == kept + Spared(net.latches[k..], Dropped(net))
    decreases |net.latches| - k
  {
    hide Prepared, Frees, Agree, ArityOk, Distinct, DropLatch, KeepsMeaning, DroppedFirst;
    var todo := net.latches[k..];
    if k < |net.latches| {
      assert todo[0] == net.latches[k] && todo[1..] == net.latches[k + 1..];
      VisitNext(cur, kept, todo);
      ReadIsFanout(net, cur, DroppedFirst(net, k), todo[0]);
      DecidedAtVisit(net, k);
      if cur.outs[todo[0]] == [] {
        DropNext(net, cur, DroppedFirst(net, k), todo[0]);
        DropFromLatches(net, DropLatch(cur, todo[0]), kept, k + 1);
      } else {
        assert DroppedFirst(net, k + 1) == DroppedFirst(net, k);
        DropFromLatches(net, cur, kept + [todo[0]], k + 1);
        assert kept + [todo[0]] + Spared(todo[1..], Dropped(net)) ==
          kept + ([todo[0]] + Spared(todo[1..], Dropped(net)));
      }
    }
  }

  /** A latch goes exactly if only latches that went before read it. */
  lemma DecidedAtVisit(net: Netlist, k: nat)
    requires k < |net.latches|
    ensures net.latches[k] in Dropped(net) <==> OnlyRead(net, net.latches[k], DroppedFirst(net, k))
    ensures DroppedFirst(net, k + 1) == DroppedFirst(net, k)
      + if OnlyRead(net, net.latches[k], DroppedFirst(net, k)) then {net.latches[k]} else {}
  {
    hide Agree, ArityOk, Acyclic, NetOk, OnlyRead;
    if net.latches[k] in Dropped(net) {
      DroppedPrefix(net, k, |net.latches|);
      if net.latches[k] in DroppedFirst(net, k) {
        NotYetDropped(net, k);
      }
    } else {
      DroppedGrows(net, k + 1, |net.latches|);
    }
  }

  lemma NotYetDropped(net: Netlist, k: nat)
    requires k < |net.latches|
    ensures net.latches[k] !in DroppedFirst(net, k)
  {
    hide Agree, ArityOk, Acyclic, NetOk, OnlyRead, DroppedFirst;
    if net.latches[k] in DroppedFirst(net, k) {
      DroppedAt(net, k, net.latches[k]);
    }
  }

  /** The latches that stay keep their order. */
  lemma LatchesKeepOrder(net: Netlist)
    ensures DropHanging(net).latches == Spared(net.latches, Dropped(net))
  {
    hide Frees, DropFrom, DroppedFirst, Visiting, Prepared, Spared;
    StartVisit(net);
    StartFreed(net);
    assert net.latches[0..] == net.latches;
    DropFromLatches(net, net, [], 0);
  }

  /** Every latch that reads a latch stands before it in the list. */
  ghost predicate ReadersFirst(net: Net) {
    forall i, v :: 0 <= i < |net.latches| && net.latches[i] < |net.outs| && v in net.outs[net.latches[i]]
      && net.IsLatch(v)
      ==> v in net.latches[..i]
  }

  /** In such an order one pass is enough. */
  lemma ReadersFirstIsEnough(net: Netlist, l: nat)
    requires ReadersFirst(net)
    ensures NetOk(DropHanging(net)) && !Hanging(DropHanging(net), l)
  {
    hide Agree, ArityOk, Acyclic, DropHanging, ReadersFirst;
    StillHangsExactly(net, l);
    if Hanging(DropHanging(net), l) {
      assert l in net.latches;
      var k :| 0 <= k < |net.latches| && net.latches[k] == l;
      ReadersWentEarlier(net, k);
      DroppedGrows(net, k + 1, |net.latches|);
    }
  }

  lemma ReadersWentEarlier(net: Netlist, k: nat)
    requires ReadersFirst(net) && k < |net.latches| && OnlyRead(net, net.latches[k], Dropped(net))
    ensures net.latches[k] in DroppedFirst(net, k + 1)
  {
    hide Agree, ArityOk, Acyclic, DroppedFirst;
    var l := net.latches[k];
    forall i | 0 <= i < |net.outs[l]| ensures net.outs[l][i] in DroppedFirst(net, k) {
      var v := net.outs[l][i];
      DroppedAt(net, |net.latches|, v);
      var j :| 0 <= j < k && net.latches[j] == v;
      DroppedPrefix(net, j, |net.latches|);
      DroppedGrows(net, j + 1, k);
    }
    DroppedLast(net, k);
  }

  lemma DroppedLast(net: Net, k: nat)
    requires k < |net.latches| && OnlyRead(net, net.latches[k], DroppedFirst(net, k))
    ensures net.latches[k] in DroppedFirst(net, k + 1)
  {
  }

  lemma {:induction false} DroppedGrows(net: Net, j: nat, k: nat)
    requires j <= k <= |net.latches|
    ensures DroppedFirst(net, j) <= DroppedFirst(net, k)
  {
    if j < k {
      DroppedGrows(net, j, k - 1);
    }
  }

  /** Only latches of the list go. */
  lemma {:induction false} DroppedAt(net: Netlist, k: nat, v: nat)
    requires k <= |net.latches| && v in DroppedFirst(net, k)
    ensures net.IsLatch(v) && v in net.latches[..k]
  {
    hide Agree, ArityOk, Acyclic, NetOk;
    assert net.latches[k - 1] in net.latches;
    if v != net.latches[k - 1] {
      DroppedAt(net, k - 1, v);
      assert net.latches[..k] == net.latches[..k - 1] + [net.latches[k - 1]];
    } else {
      assert net.latches[..k][k - 1] == v;
    }
  }

  /** Whether a latch goes is decided when it is visited. */
  lemma {:induction false} DroppedPrefix(net: Netlist, j: nat, k: nat)
    requires j < k <= |net.latches| && net.latches[j] in DroppedFirst(net, k)
    ensures net.latches[j] in DroppedFirst(net, j + 1)
  {
    hide Agree, ArityOk, Acyclic, NetOk, OnlyRead;
    if j + 1 < k {
      assert net.latches[j] != net.latches[k - 1];
      DroppedPrefix(net, j, k - 1);
    }
  }

  /** Input 0 drives latch 1, latch 1 drives latch 2, latch 2 drives nothing. */
  function LatchChain(first: nat, second: nat): Net {
    Net([Pi, Latch, Latch], [[], [0], [1]], [[1], [2], []], [false, false, false], [-1, -1, -1], [-1, -1, -1],
        [[], [], []], [], [], [first, second])
  }

  lemma ChainIsPrepared(first: nat, second: nat)
    requires (first == 1 && second == 2) || (first == 2 && second == 1)
    ensures Prepared(LatchChain(first, second))
  {
    hide Agree, LatchChain, Ranked, ArityOk, ListsOk;
    ChainAgrees(first, second);
    ChainArity(first, second);
    ChainLists(first, second);
    assert Ranked(LatchChain(first, second), [0, 0, 0]);
  }

  lemma ChainArity(first: nat, second: nat)
    ensures var net := LatchChain(first, second);
      Shaped(net) && Ranked(net, [0, 0, 0]) && forall n :: 0 <= n < net.Size() ==>
        ArityOk(net.kind[n], net.ins[n], net.outs[n])
  {
  }

  lemma ChainLists(first: nat, second: nat)
    requires (first == 1 && second == 2) || (first == 2 && second == 1)
    ensures ListsOk(LatchChain(first, second))
  {
    var net := LatchChain(first, second);
    assert net.latches[0] == first && net.latches[1] == second;
    assert forall n: nat :: n in net.latches <==> n == 1 || n == 2;
  }

  lemma ChainAgrees(first: nat, second: nat)
    ensures Shaped(LatchChain(first, second)) && Agree(LatchChain(first, second))
  {
    var net := LatchChain(first, second);
    forall u: nat, v: nat | u < 3 && v < 3 ensures Count(net.outs[u], v) == Count(net.ins[v], u) {
      CountOf(1, v);
      CountOf(2, v);
      CountOf(0, u);
      CountOf(1, u);
    }
  }

  lemma CountOf(x: nat, y: nat)
    ensures Count([x], y) == (if x == y then 1 else 0) && Count([], y) == 0
  {
    assert [x][1..] == [];
  }

  lemma ChainDropped()
    ensures Dropped(LatchChain(1, 2)) == {2} && OnlyRead(LatchChain(1, 2), 1, {2})
  {
    var net := LatchChain(1, 2);
    assert net.latches[0] == 1 && net.latches[1] == 2 && net.outs[1][0] == 2;
    assert DroppedFirst(net, 0) == {};
    assert !OnlyRead(net, 1, {}) && OnlyRead(net, 2, {});
    assert DroppedFirst(net, 1) == {};
    assert DroppedFirst(net, 2) == {2};
  }

  lemma ChainReadersFirst()
    ensures ReadersFirst(LatchChain(2, 1))
  {
    var net := LatchChain(2, 1);
    forall i, v | 0 <= i < 2 && v in net.outs[net.latches[i]] && net.IsLatch(v) ensures v in net.latches[..i] {
      assert i == 1 && v == 2 && net.latches[..1] == [2];
    }
  }

  /** The smallest failure: two chained latches, the first one visited first. The second goes, and then
      nothing reads the first any more. In the other order both go. */
  lemma ChainStillHangs()
    ensures Prepared(LatchChain(1, 2)) && NetOk(DropHanging(LatchChain(1, 2)))
      && Hanging(DropHanging(LatchChain(1, 2)), 1)
    ensures Prepared(LatchChain(2, 1)) && NetOk(DropHanging(LatchChain(2, 1)))
    ensures forall l: nat :: !Hanging(DropHanging(LatchChain(2, 1)), l)
  {
    hide Prepared, DropHanging, Hanging;
    ChainIsPrepared(1, 2);
    ChainIsPrepared(2, 1);
    var net := LatchChain(1, 2);
    ChainDropped();
    StillHangsExactly(net, 1);
    StillHangsExactly(LatchChain(2, 1), 0);
    ChainReadersFirst();
    forall l: nat ensures !Hanging(DropHanging(LatchChain(2, 1)), l) {
      ReadersFirstIsEnough(LatchChain(2, 1), l);
    }
  }
}
