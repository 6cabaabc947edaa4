/** remove_hanging_latch_lgkntwk on the mutable network. */
module LatchCleanup {
  import opened Seqs
  import opened LogicNetwork
  import opened BufferEdits
  import opened NetworkPasses
  import opened LgkntwkEdits
  import opened PackRun
  import opened FreedNodes
  import opened HangingLatches

  /** The swap-to-the-end loop over the driver's fan-out, for a latch that occurs in it once. */
  method DropFromFanout(fan0: seq<nat>, l: nat) returns (fan: seq<nat>)
    requires Count(fan0, l) == 1
    ensures fan0 != [] && fan == DropOne(fan0, l)
  {
    fan := fan0;
    CountPositive(fan0, l);
    var pos := IndexOf(fan0, l);
    var last := |fan0| - 1;
    var outputNum := |fan0|;
    var im := 0;
    while im < outputNum
      invariant 0 <= im
      invariant im <= pos ==> fan == fan0 && outputNum == |fan0|
      invariant im > pos ==> fan == fan0[pos := fan0[last]][last := l] && outputNum == last
      decreases outputNum - im
    {
      if fan[im] == l {
        if im > pos {
          OnlyOnce(fan0, pos, if im == pos then last else im);
        }
        assert im == pos;
        var swap := fan[im];
        fan := fan[im := fan[outputNum - 1]];
        fan := fan[outputNum - 1 := swap];
        outputNum := outputNum - 1;
      }
      im := im + 1;
    }
    assert im > pos;
    assert fan[..outputNum] == fan0[pos := fan0[last]][..last];
    fan := fan[..outputNum];
  }

  lemma OnlyOnce(s: seq<nat>, i: nat, j: nat)
    requires i < |s| && j < |s| && s[i] == s[j] && Count(s, s[i]) == 1
    ensures i == j
  {
    if i < j {
      CountOneTwice(s, i, j);
    } else if j < i {
      CountOneTwice(s, j, i);
    }
  }

  /** One latch without fan-out leaves its driver and is freed. */
  method DropOneLatch(nw: Lgkntwk, l: nat)
    requires NetOk(nw.State()) && Hanging(nw.State(), l)
    requires |nw.ins[l]| == 1 && nw.ins[l][0] != l && nw.outs[nw.ins[l][0]] != []
    modifies nw
    ensures nw.State() == DropLatch(old(nw.State()), l) && nw.latches == old(nw.latches)
  {
    hide Agree, ArityOk, DropLatch;
    ghost var net := nw.State();
    var drv := nw.ins[l][0];
    SingleEntry(net, l);
    var fan := DropFromFanout(nw.outs[drv], l);
    nw.outs := nw.outs[drv := fan];
    nw.kind := nw.kind[l := Freed];
    nw.ins := nw.ins[l := []];
    nw.outs := nw.outs[l := []];
    DropIs(net, l, fan);
  }

  /** The state of the loop: cur is the network apart from the list of latches. */
  ghost predicate Cleaning(net: Netlist, state: Net, cur: Net, kept: seq<nat>, todo: seq<nat>) {
    && state == cur.(latches := kept + todo) && Visiting(cur, kept, todo)
    && DropFrom(cur, kept, todo) == DropHanging(net)
  }

  lemma NextKept(net: Netlist, state: Net, cur: Net, kept: seq<nat>, todo: seq<nat>)
    requires Cleaning(net, state, cur, kept, todo) && todo != [] && todo[0] < cur.Size() && cur.outs[todo[0]] != []
    ensures Cleaning(net, state, cur, kept + [todo[0]], todo[1..])
  {
    hide Visiting, DropHanging;
    VisitNext(cur, kept, todo);
    assert kept + todo == (kept + [todo[0]]) + todo[1..];
  }

  lemma NextDropped(net: Netlist, state: Net, cur: Net, kept: seq<nat>, todo: seq<nat>, state': Net)
    requires Cleaning(net, state, cur, kept, todo) && todo != [] && todo[0] < cur.Size() && cur.outs[todo[0]] == []
    requires Shaped(state) && |state.ins[todo[0]]| == 1 && state.outs[state.ins[todo[0]][0]] != []
    requires state' == DropLatch(state, todo[0]).(latches := kept + todo[1..])
    ensures Cleaning(net, state', DropLatch(cur, todo[0]), kept, todo[1..])
  {
    hide Visiting, DropHanging, KeepsMeaning;
    VisitNext(cur, kept, todo);
  }

  /** What the loop needs to know about the next latch. */
  lemma NextLatch(net: Netlist, state: Net, cur: Net, kept: seq<nat>, todo: seq<nat>)
    requires Cleaning(net, state, cur, kept, todo) && todo != []
    ensures NetOk(state) && Shaped(state) && Shaped(cur) && todo[0] < state.Size() && state.IsLatch(todo[0])
    ensures cur.Size() == state.Size() && cur.outs == state.outs && cur.ins == state.ins
    ensures (kept + todo)[|kept|] == todo[0]
    ensures state.outs[todo[0]] == [] ==>
      |state.ins[todo[0]]| == 1 && state.ins[todo[0]][0] != todo[0] && state.outs[state.ins[todo[0]][0]] != []
  {
    hide DropHanging, DropFrom, DropLatch, KeepsMeaning, Agree, ArityOk;
    VisitNext(cur, kept, todo);
    LatchesAside(cur, kept + todo);
  }

  lemma LatchesAside(net: Net, latches: seq<nat>)
    requires NetOk(net)
    ensures NetOk(net.(latches := latches))
  {
    var r := net.(latches := latches);
    forall u: nat, v: nat | u < r.Size() && v < r.Size() ensures Count(r.outs[u], v) == Count(r.ins[v], u) {
      assert Count(net.outs[u], v) == Count(net.ins[v], u);
    }
  }

  method RemoveHangingLatches(nw: Lgkntwk)
    requires Prepared(nw.State())
    modifies nw
    ensures nw.State() == DropHanging(old(nw.State()))
    ensures Frees(old(nw.State()), nw.State(), Dropped(old(nw.State())))
  {
    hide Frees, Dropped, Prepared, DropLatch, Cleaning, NetOk, DropHanging, Visiting, DropFrom, KeepsMeaning;
    ghost var net: Netlist := nw.State();
    ghost var cur: Net := net;
    StartCleaning(net);
    var im := 0;
    ghost var todo := net.latches;
    assert nw.latches[..0] == [];
    while im < |nw.latches|
      invariant 0 <= im <= |nw.latches| && nw.latches == nw.latches[..im] + todo
      invariant Cleaning(net, nw.State(), cur, nw.latches[..im], todo)
      decreases |todo|
    {
      ghost var kept, state := nw.latches[..im], nw.State();
      var l := nw.latches[im];
      NextLatch(net, state, cur, kept, todo);
      if nw.outs[l] == [] {
        DropOneLatch(nw, l);
        assert nw.latches[im + 1..] == todo[1..];
        nw.latches := nw.latches[..im] + nw.latches[im + 1..];
        NextDropped(net, state, cur, kept, todo, nw.State());
        assert nw.latches[..im] == kept;
        cur := DropLatch(cur, l);
      } else {
        NextKept(net, state, cur, kept, todo);
        im := im + 1;
        assert nw.latches[..im] == kept + [l];
      }
      todo := todo[1..];
    }
    assert nw.latches[..im] == nw.latches;
    Finished(net, nw.State(), cur, nw.latches, todo);
    DropsExactly(net);
  }

  lemma StartCleaning(net: Netlist)
    ensures Cleaning(net, net, net, [], net.latches)
  {
    StartVisit(net);
    assert [] + net.latches == net.latches;
  }

  lemma Finished(net: Netlist, state: Net, cur: Net, kept: seq<nat>, todo: seq<nat>)
    requires Cleaning(net, state, cur, kept, todo) && todo == []
    ensures state == DropHanging(net)
  {
    assert kept + todo == kept;
  }

  lemma SingleEntry(net: Net, l: nat)
    requires NetOk(net) && net.IsLatch(l) && |net.ins[l]| == 1
    ensures Count(net.outs[net.ins[l][0]], l) == 1
  {
    assert net.ins[l] == [net.ins[l][0]] && net.ins[l][1..] == [];
    assert Count(net.outs[net.ins[l][0]], l) == Count(net.ins[l], net.ins[l][0]);
  }

  lemma DropIs(net: Net, l: nat, fan: seq<nat>)
    requires Shaped(net) && l < net.Size() && |net.ins[l]| == 1 && net.outs[net.ins[l][0]] != []
    requires fan == DropOne(net.outs[net.ins[l][0]], l)
    ensures DropLatch(net, l) == net.(kind := net.kind[l := Freed], ins := net.ins[l := []],
                                      outs := net.outs[net.ins[l][0] := fan][l := []])
  {
  }
}
