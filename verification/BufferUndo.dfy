/** Taking one buffer off one input pin (remove_one_buf_lgknd): the inverse of adding it, and exactly
    when it leaves the network in order. */
module BufferUndo {
  import opened Seqs
  import opened LogicNetwork
  import opened BufferEdits
  import opened NetworkPasses
  import opened LgkntwkEdits
  import opened PackRun

  /** The buffer's predecessor drives the pin directly and the buffer is freed. */
  function RemoveOneBuf(net: Net, cur: nat, pin: nat): Net
    requires Shaped(net) && cur < net.Size() && pin < |net.ins[cur]| && |net.ins[net.ins[cur][pin]]| == 1
  {
    var b := net.ins[cur][pin];
    var pre := net.ins[b][0];
    var pos := IndexOf(net.outs[pre], b);
    var fan: seq<nat> := if pos < 0 then net.outs[pre] else net.outs[pre][pos := cur];
    var pins: seq<nat> := net.ins[cur][pin := pre];
    net.(kind := net.kind[b := Freed], ins := net.ins[cur := pins][b := []], outs := net.outs[pre := fan][b := []])
  }

  /** Adding a buffer and removing it again gives every node its edges back; the new node is free. */
  lemma RemovingUndoesAdding(net: Net, cur: nat, pin: nat)
    requires NetOk(net) && cur < net.Size() && pin < |net.ins[cur]|
    ensures var mid := AddBuf(net, cur, pin);
      Shaped(mid) && mid.ins[cur][pin] == net.Size()
      && var r := RemoveOneBuf(mid, cur, pin);
         r.ins == net.ins + [[]] && r.outs == net.outs + [[]] && r.kind == net.kind + [Freed]
  {
    AddBufKeepsAgreement(net, cur, pin);
    var b: nat := net.Size();
    var drv := net.ins[cur][pin];
    var mid := AddBuf(net, cur, pin);
    EdgeBothWays(net, drv, cur);
    var pos := IndexOf(net.outs[drv], cur);
    IndexOfFirst(mid.outs[drv], pos, b);
    var r := RemoveOneBuf(mid, cur, pin);
    assert r.ins[cur] == net.ins[cur];
    assert r.outs[drv] == net.outs[drv];
  }

  /** A buffer that drives only this pin. */
  ghost predicate OnlyPin(net: Net, cur: nat, b: nat)
    requires Shaped(net) && b < net.Size()
  {
    net.outs[b] == [cur]
  }

  lemma EdgesAfter(net: Net, cur: nat, pin: nat, u: nat, v: nat)
    requires NetOk(net) && cur < net.Size() && pin < |net.ins[cur]| && net.kind[net.ins[cur][pin]] == Buf
    requires net.ins[net.ins[cur][pin]][0] != net.ins[cur][pin] && OnlyPin(net, cur, net.ins[cur][pin])
    requires u < net.Size() && v < net.Size()
    ensures var r := RemoveOneBuf(net, cur, pin); Count(r.outs[u], v) == Count(r.ins[v], u)
  {
    var b := net.ins[cur][pin];
    var pre := net.ins[b][0];
    var pos := IndexOf(net.outs[pre], b);
    EdgeBothWays(net, pre, b);
    EdgeBothWays(net, b, cur);
    assert Count(net.outs[u], v) == Count(net.ins[v], u);
    assert Count(net.outs[u], b) == Count(net.ins[b], u);
    assert Count(net.outs[b], v) == Count(net.ins[v], b);
    CountUpdate(net.outs[pre], pos, cur, v);
    CountUpdate(net.ins[cur], pin, pre, u);
    assert net.ins[b] == [pre] && net.ins[b][1..] == [];
    assert net.outs[b] == [cur] && net.outs[b][1..] == [];
  }

  lemma OrderAfter(net: Net, cur: nat, pin: nat)
    requires NetOk(net) && cur < net.Size() && pin < |net.ins[cur]| && net.kind[net.ins[cur][pin]] == Buf
    requires net.ins[net.ins[cur][pin]][0] != net.ins[cur][pin] && OnlyPin(net, cur, net.ins[cur][pin])
    ensures NetOk(RemoveOneBuf(net, cur, pin))
  {
    hide Agree;
    var b := net.ins[cur][pin];
    var r := RemoveOneBuf(net, cur, pin);
    assert b != cur;
    assert Shaped(r);
    AgreeAfter(net, cur, pin);
  }

  lemma AgreeAfter(net: Net, cur: nat, pin: nat)
    requires NetOk(net) && cur < net.Size() && pin < |net.ins[cur]| && net.kind[net.ins[cur][pin]] == Buf
    requires net.ins[net.ins[cur][pin]][0] != net.ins[cur][pin] && OnlyPin(net, cur, net.ins[cur][pin])
    requires Shaped(RemoveOneBuf(net, cur, pin))
    ensures Agree(RemoveOneBuf(net, cur, pin))
  {
    hide RemoveOneBuf, ArityOk;
    BufArity(net, net.ins[cur][pin]);
    var r := RemoveOneBuf(net, cur, pin);
    assert r.Size() == net.Size() by { SameSize(net, cur, pin); }
    forall u: nat, v: nat | u < r.Size() && v < r.Size() ensures Count(r.outs[u], v) == Count(r.ins[v], u) {
      EdgesAfter(net, cur, pin, u, v);
    }
  }

  lemma SameSize(net: Net, cur: nat, pin: nat)
    requires Shaped(net) && cur < net.Size() && pin < |net.ins[cur]| && |net.ins[net.ins[cur][pin]]| == 1
    ensures RemoveOneBuf(net, cur, pin).Size() == net.Size()
  {
  }

  /** With another pin on the buffer, some pin is left on the freed node. */
  lemma PinLeftBehind(net: Net, cur: nat, pin: nat)
    requires NetOk(net) && cur < net.Size() && pin < |net.ins[cur]| && net.kind[net.ins[cur][pin]] == Buf
    requires net.ins[net.ins[cur][pin]][0] != net.ins[cur][pin] && !OnlyPin(net, cur, net.ins[cur][pin])
    ensures !NetOk(RemoveOneBuf(net, cur, pin))
  {
    var b := net.ins[cur][pin];
    var pre := net.ins[b][0];
    var r := RemoveOneBuf(net, cur, pin);
    EdgeBothWays(net, b, cur);
    assert b != cur;
    var v := AnotherReader(net.outs[b], cur);
    assert Count(net.outs[b], v) == Count(net.ins[v], b);
    CountUpdate(net.ins[cur], pin, pre, b);
    assert r.outs[b] == [];
    assert net.ins[b] == [pre] && net.ins[b][1..] == [];
    assert Count(r.ins[v], b) > 0 && Count(r.outs[b], v) == 0;
  }

  /** A fan-out that holds cur and is not just cur has another entry. */
  lemma AnotherReader(fan: seq<nat>, cur: nat) returns (v: nat)
    requires cur in fan && fan != [cur]
    ensures v in fan && Count(fan, v) > (if v == cur then 1 else 0)
  {
    if i :| 0 <= i < |fan| && fan[i] != cur {
      v := fan[i];
      CountPositive(fan, v);
    } else {
      v := cur;
      assert fan[0] == cur && fan[1] == cur;
      CountOneTwice(fan, 0, 1);
    }
  }

  /** The edit leaves a network in order exactly when the buffer drives this pin and nothing else. */
  lemma RemoveOneBufExactly(net: Net, cur: nat, pin: nat)
    requires NetOk(net) && cur < net.Size() && pin < |net.ins[cur]| && net.kind[net.ins[cur][pin]] == Buf
    requires net.ins[net.ins[cur][pin]][0] != net.ins[cur][pin]
    ensures NetOk(RemoveOneBuf(net, cur, pin)) <==> net.outs[net.ins[cur][pin]] == [cur]
  {
    hide RemoveOneBuf, Agree;
    if OnlyPin(net, cur, net.ins[cur][pin]) {
      OrderAfter(net, cur, pin);
    } else {
      PinLeftBehind(net, cur, pin);
    }
  }

  /** Then it is the general bypass up to the order of one fan-out list, so it changes no value. */
  lemma RemoveOneBufKeepsMeaning(net: Net, cur: nat, pin: nat)
    requires NetOk(net) && Acyclic(net) && cur < net.Size() && pin < |net.ins[cur]|
      && net.kind[net.ins[cur][pin]] == Buf
    requires net.outs[net.ins[cur][pin]] == [cur]
    ensures KeepsMeaning(net, RemoveOneBuf(net, cur, pin))
  {
    hide Agree, Val;
    var b := net.ins[cur][pin];
    BypassKeepsMeaning(net, b);
    OrderAfter(net, cur, pin);
    var r, s := RemoveOneBuf(net, cur, pin), Bypass(net, b);
    SamePins(net, cur, pin);
    forall rk | Ranked(net, rk) ensures Ranked(r, rk) {
      BypassFacts(net, b, rk);
    }
    SameFromBypass(net, s, r);
  }

  lemma SamePins(net: Net, cur: nat, pin: nat)
    requires NetOk(net) && cur < net.Size() && pin < |net.ins[cur]| && net.kind[net.ins[cur][pin]] == Buf
    requires net.outs[net.ins[cur][pin]] == [cur] && net.ins[net.ins[cur][pin]][0] != net.ins[cur][pin]
    requires net.outs[net.ins[net.ins[cur][pin]][0]] != []
    ensures RemoveOneBuf(net, cur, pin).ins == Bypass(net, net.ins[cur][pin]).ins
    ensures RemoveOneBuf(net, cur, pin).kind == Bypass(net, net.ins[cur][pin]).kind
  {
    var b := net.ins[cur][pin];
    var pre := net.ins[b][0];
    assert Count(net.outs[b], cur) == Count(net.ins[cur], b);
    assert net.outs[b][1..] == [];
    forall i | 0 <= i < |net.ins[cur]| && net.ins[cur][i] == b ensures i == pin {
      if i < pin {
        CountOneTwice(net.ins[cur], i, pin);
      } else if pin < i {
        CountOneTwice(net.ins[cur], pin, i);
      }
    }
    assert net.ins[cur][pin := pre] == Replace(net.ins[cur], b, pre);
    var r, s := RemoveOneBuf(net, cur, pin), Bypass(net, b);
    forall v: nat | v < net.Size() ensures r.ins[v] == s.ins[v] {
      assert s.ins[v] == BypassPins(net, b, pre, v);
    }
  }

  lemma SameFromBypass(net: Net, s: Net, r: Net)
    requires NetOk(net) && NetOk(s) && NetOk(r) && SameMeaning(net, s)
    requires r.kind == s.kind && r.ins == s.ins && r.Size() == net.Size()
      && (forall rk :: Ranked(net, rk) ==> Ranked(r, rk))
    ensures SameMeaning(net, r)
  {
    hide Val, Agree, ArityOk;
    forall rk, rk', g: GateFun, env: nat -> bool, n: nat
      | Ranked(net, rk) && Ranked(r, rk') && n < net.Size() && r.kind[n] != Freed
      ensures Val(net, rk, g, env, n) == Val(r, rk', g, env, n)
      ensures Sampled(net, rk, g, env, n) == Sampled(r, rk', g, env, n)
    {
      assert Ranked(s, rk');
      SampledIgnoresLists(s, r, rk', g, env, n);
    }
  }

  /** remove_one_buf_lgknd; ok is false where it reports that the input is no buffer and exits. */
  method RemoveBufAt(nw: Lgkntwk, cur: nat, pin: nat) returns (ok: bool)
    requires NetOk(nw.State()) && cur < |nw.kind| && pin < |nw.ins[cur]| && nw.ins[cur][pin] != cur
    requires nw.kind[nw.ins[cur][pin]] == Buf ==> nw.ins[nw.ins[cur][pin]][0] != nw.ins[cur][pin]
    modifies nw
    ensures ok <==> old(nw.kind[nw.ins[cur][pin]]) == Buf
    ensures ok ==> nw.State() == RemoveOneBuf(old(nw.State()), cur, pin)
    ensures !ok ==> nw.State() == old(nw.State())
  {
    hide Agree;
    var b := nw.ins[cur][pin];
    if nw.kind[b] != Buf {
      return false;
    }
    var pre := nw.ins[b][0];
    nw.RedirectFanout(pre, b, cur);
    var row: seq<nat> := nw.ins[cur][pin := pre];
    nw.ins := nw.ins[cur := row];
    nw.kind := nw.kind[b := Freed];
    nw.ins := nw.ins[b := []];
    nw.outs := nw.outs[b := []];
    assert nw.outs == RemoveOneBuf(old(nw.State()), cur, pin).outs;
    ok := true;
  }
}
