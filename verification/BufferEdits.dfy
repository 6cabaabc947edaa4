/** The rewrites that add and remove buffers, as functions on the network (lgkntwk_common.c). */
module BufferEdits {
  import opened Seqs
  import opened LogicNetwork

  /** A new buffer, numbered Size(), between cur and the driver of its input pin. */
  function AddBuf(net: Net, cur: nat, pin: nat): Net
    requires Shaped(net) && cur < net.Size() && pin < |net.ins[cur]|
  {
    var b: nat := net.Size();
    var drv := net.ins[cur][pin];
    var pos := IndexOf(net.outs[drv], cur);
    var fan: seq<nat> := if pos < 0 then net.outs[drv] else net.outs[drv][pos := b];
    var pins: seq<nat> := net.ins[cur][pin := b];
    net.(kind := net.kind + [Buf],
         ins := net.ins[cur := pins] + [[drv]],
         outs := net.outs[drv := fan] + [[cur]],
         mapped := net.mapped + [false], bleOf := net.bleOf + [-1], cellOf := net.cellOf + [-1],
         tried := net.tried + [[]])
  }

  /** The buffers among the given nodes, in order. */
  function BufsOf(net: Net, s: seq<nat>): (r: seq<nat>)
    requires forall i :: 0 <= i < |s| ==> s[i] < net.Size()
    ensures forall i :: 0 <= i < |r| ==> r[i] < net.Size() && net.kind[r[i]] == Buf && r[i] in s
  {
    if s == [] then []
    else
      assert s[0] < net.Size();
      (if net.kind[s[0]] == Buf then [s[0]] else []) + BufsOf(net, s[1..])
  }

  function Reverse(s: seq<nat>): seq<nat> {
    if s == [] then [] else Reverse(s[1..]) + [s[0]]
  }

  /** Enter the buffers at cur's inputs into the linked list (each at its head) and the array. */
  function EnterInputBufs(net: Net, cur: nat): Net
    requires Shaped(net) && cur < net.Size()
  {
    var bufs := BufsOf(net, net.ins[cur]);
    net.(list := Reverse(bufs) + net.list, gates := net.gates + bufs)
  }

  /** s with every x replaced by y. */
  function Replace(s: seq<nat>, x: nat, y: nat): (r: seq<nat>)
    ensures |r| == |s| && forall i :: 0 <= i < |s| ==> r[i] == if s[i] == x then y else s[i]
  {
    seq(|s|, i requires 0 <= i < |s| => if s[i] == x then y else s[i])
  }

  /** fan without its first b: the last entry takes that slot and the array shrinks by one. */
  function DropOne(fan: seq<nat>, b: nat): (r: seq<nat>)
    requires fan != []
    ensures |r| == |fan| - 1
  {
    var last := |fan| - 1;
    var pos := IndexOf(fan, b);
    if pos < 0 then fan[..last] else fan[pos := fan[last]][..last]
  }

  /** The input pins of node v once buffer b's fan-out is driven by pre. */
  function BypassPins(net: Net, b: nat, pre: nat, v: nat): seq<nat>
    requires Shaped(net) && b < net.Size() && v < net.Size()
  {
    if v == b then [] else if v in net.outs[b] then Replace(net.ins[v], b, pre) else net.ins[v]
  }

  /** Take buffer b out: its predecessor drives b's fan-out directly, and b is freed. */
  function Bypass(net: Net, b: nat): Net
    requires Shaped(net) && b < net.Size() && |net.ins[b]| == 1 && net.outs[net.ins[b][0]] != []
  {
    var pre := net.ins[b][0];
    var fan: seq<nat> := DropOne(net.outs[pre], b) + net.outs[b];
    net.(kind := net.kind[b := Freed],
         outs := net.outs[pre := fan][b := []],
         ins := seq(net.Size(), v requires 0 <= v < net.Size() => BypassPins(net, b, pre, v)))
  }

  lemma {:induction false} CountAbsent(s: seq<nat>, x: nat)
    requires forall i :: 0 <= i < |s| ==> s[i] != x
    ensures Count(s, x) == 0
  {
    CountPositive(s, x);
  }

  lemma {:induction false} CountReplace(s: seq<nat>, x: nat, y: nat, z: nat)
    requires x != y
    ensures Count(Replace(s, x, y), z)
         == if z == x then 0 else if z == y then Count(s, x) + Count(s, y) else Count(s, z)
  {
    if s != [] {
      CountReplace(s[1..], x, y, z);
      assert Replace(s, x, y)[1..] == Replace(s[1..], x, y);
    }
  }

  lemma AddBufEdge(net: Net, cur: nat, pin: nat, u: nat, v: nat)
    requires NetOk(net) && cur < net.Size() && pin < |net.ins[cur]| && u <= net.Size() && v <= net.Size()
    ensures Count(AddBuf(net, cur, pin).outs[u], v) == Count(AddBuf(net, cur, pin).ins[v], u)
  {
    hide Count, ArityOk;
    var b: nat := net.Size();
    var drv := net.ins[cur][pin];
    EdgeBothWays(net, drv, cur);
    if u < b && v < b {
      assert Count(net.outs[u], v) == Count(net.ins[v], u);
    }
    if u < b { CountAbsent(net.outs[u], b); }
    if v < b { CountAbsent(net.ins[v], b); }
    if u == drv { CountUpdate(net.outs[drv], IndexOf(net.outs[drv], cur), b, v); }
    if v == cur { CountUpdate(net.ins[cur], pin, b, u); }
    CountOne(cur, v);
    CountOne(drv, u);
  }

  lemma CountOne(x: nat, y: nat)
    ensures Count([x], y) == if x == y then 1 else 0
  {
    assert [x][1..] == [];
  }

  lemma AddBufKeepsAgreement(net: Net, cur: nat, pin: nat)
    requires NetOk(net) && cur < net.Size() && pin < |net.ins[cur]|
    ensures NetOk(AddBuf(net, cur, pin))
  {
    hide Count;
    EdgeBothWays(net, net.ins[cur][pin], cur);
    forall u: nat, v: nat | u <= net.Size() && v <= net.Size()
      ensures Count(AddBuf(net, cur, pin).outs[u], v) == Count(AddBuf(net, cur, pin).ins[v], u)
    {
      AddBufEdge(net, cur, pin, u, v);
    }
  }

  /** A ranking of the network with the buffer in place. */
  ghost function AddBufRanking(net: Net, cur: nat, pin: nat, rk: seq<nat>): (r: seq<nat>)
    requires NetOk(net) && cur < net.Size() && pin < |net.ins[cur]| && Ranked(net, rk)
    ensures NetOk(AddBuf(net, cur, pin)) && Ranked(AddBuf(net, cur, pin), r)
  {
    AddBufKeepsAgreement(net, cur, pin);
    seq(net.Size(), i requires 0 <= i < net.Size() => 2 * rk[i]) + [2 * rk[net.ins[cur][pin]] + 1]
  }

  lemma {:induction false} AddBufValue(net: Net, cur: nat, pin: nat, rk: seq<nat>, g: GateFun, env: nat -> bool, n: nat)
    requires NetOk(net) && cur < net.Size() && pin < |net.ins[cur]| && Ranked(net, rk) && n < net.Size()
    ensures Val(AddBuf(net, cur, pin), AddBufRanking(net, cur, pin, rk), g, env, n) == Val(net, rk, g, env, n)
    decreases rk[n]
  {
    var net' := AddBuf(net, cur, pin);
    var rk' := AddBufRanking(net, cur, pin, rk);
    var b: nat := net.Size();
    if Comb(net.kind[n]) {
      forall i | 0 <= i < |net.ins[n]|
        ensures Val(net', rk', g, env, net'.ins[n][i]) == Val(net, rk, g, env, net.ins[n][i])
      {
        AddBufValue(net, cur, pin, rk, g, env, net.ins[n][i]);
        if n == cur && i == pin {
          assert net'.kind[b] == Buf && net'.ins[b] == [net.ins[cur][pin]];
        }
      }
      if net.kind[n] == Gate {
        assert seq(|net.ins[n]|, i requires 0 <= i < |net.ins[n]| => Val(net, rk, g, env, net.ins[n][i]))
            == seq(|net'.ins[n]|, i requires 0 <= i < |net'.ins[n]| => Val(net', rk', g, env, net'.ins[n][i]));
      }
    }
  }

  /** One node with a buffer in front of some input, under any rankings. */
  lemma AddBufPoint(net: Net, cur: nat, pin: nat, rk: seq<nat>, rk': seq<nat>, g: GateFun, env: nat -> bool, n: nat)
    requires NetOk(net) && cur < net.Size() && pin < |net.ins[cur]| && n < net.Size()
    requires Ranked(net, rk) && NetOk(AddBuf(net, cur, pin)) && Ranked(AddBuf(net, cur, pin), rk')
    ensures Val(net, rk, g, env, n) == Val(AddBuf(net, cur, pin), rk', g, env, n)
  {
    hide Val, AddBuf, Agree, ArityOk;
    AddBufValue(net, cur, pin, rk, g, env, n);
    ValIgnoresRanking(AddBuf(net, cur, pin), AddBufRanking(net, cur, pin, rk), rk', g, env, n);
  }

  lemma AddBufSampled(net: Net, cur: nat, pin: nat, rk: seq<nat>, rk': seq<nat>, g: GateFun, env: nat -> bool, n: nat)
    requires NetOk(net) && cur < net.Size() && pin < |net.ins[cur]| && n < net.Size()
    requires Ranked(net, rk) && NetOk(AddBuf(net, cur, pin)) && Ranked(AddBuf(net, cur, pin), rk')
    ensures Sampled(net, rk, g, env, n) == Sampled(AddBuf(net, cur, pin), rk', g, env, n)
  {
    hide Agree;
    AddBufPoint(net, cur, pin, rk, rk', g, env, n);
    if net.kind[n] == Latch {
      AddBufPoint(net, cur, pin, rk, rk', g, env, net.ins[n][0]);
      if n == cur {
        var net' := AddBuf(net, cur, pin);
        assert net'.kind[net.Size()] == Buf && net'.ins[net.Size()] == [net.ins[n][0]];
      }
    }
  }

  lemma AddBufStaysAcyclic(net: Net, cur: nat, pin: nat)
    requires NetOk(net) && cur < net.Size() && pin < |net.ins[cur]| && Acyclic(net)
    ensures NetOk(AddBuf(net, cur, pin)) && Acyclic(AddBuf(net, cur, pin))
  {
    hide Ranked, Agree, ArityOk, AddBuf;
    var rk :| Ranked(net, rk);
    assert Ranked(AddBuf(net, cur, pin), AddBufRanking(net, cur, pin, rk));
  }

  lemma AddBufSize(net: Net, cur: nat, pin: nat)
    requires Shaped(net) && cur < net.Size() && pin < |net.ins[cur]|
    ensures var r := AddBuf(net, cur, pin);
      r.Size() == net.Size() + 1 && r.latches == net.latches && forall n :: 0 <= n < net.Size() ==>
        r.kind[n] == net.kind[n]
  {
  }

  /** Adding a buffer in front of any input changes no node's value and no latch's next state. */
  lemma AddBufKeepsMeaning(net: Net, cur: nat, pin: nat)
    requires NetOk(net) && cur < net.Size() && pin < |net.ins[cur]|
    ensures NetOk(AddBuf(net, cur, pin)) && SameMeaning(net, AddBuf(net, cur, pin))
  {
    hide Val, Sampled, Agree, ArityOk, AddBuf, Acyclic, Ranked;
    var net' := AddBuf(net, cur, pin);
    AddBufKeepsAgreement(net, cur, pin);
    AddBufSize(net, cur, pin);
    if Acyclic(net) {
      AddBufStaysAcyclic(net, cur, pin);
    }
    forall rk, rk', g: GateFun, env: nat -> bool, n: nat | Ranked(net, rk) && Ranked(net', rk') && n < net.Size()
      ensures Val(net, rk, g, env, n) == Val(net', rk', g, env, n)
      ensures Sampled(net, rk, g, env, n) == Sampled(net', rk', g, env, n)
    {
      AddBufPoint(net, cur, pin, rk, rk', g, env, n);
      AddBufSampled(net, cur, pin, rk, rk', g, env, n);
    }
  }

  lemma DropOneCount(fan: seq<nat>, b: nat, v: nat)
    requires b in fan
    ensures Count(DropOne(fan, b), v) + (if v == b then 1 else 0) == Count(fan, v)
  {
    var last := |fan| - 1;
    var pos := IndexOf(fan, b);
    var swapped: seq<nat> := fan[pos := fan[last]];
    CountUpdate(fan, pos, fan[last], v);
    assert swapped == swapped[..last] + [fan[last]];
    CountAppend(swapped[..last], [fan[last]], v);
  }

  lemma DropOneIn(fan: seq<nat>, b: nat, i: nat)
    requires fan != [] && i < |fan| - 1
    ensures DropOne(fan, b)[i] in fan
  {
  }

  /** Replacing b on the consumers only is replacing it everywhere. */
  lemma BypassPinsAre(net: Net, b: nat, pre: nat, v: nat)
    requires NetOk(net) && b < net.Size() && v < net.Size() && v != b
    ensures BypassPins(net, b, pre, v) == Replace(net.ins[v], b, pre)
  {
    EdgeBothWays(net, b, v);
    if v !in net.outs[b] {
      assert Replace(net.ins[v], b, pre) == net.ins[v];
    }
  }

  lemma BypassEdge(net: Net, b: nat, u: nat, v: nat)
    requires NetOk(net) && b < net.Size() && net.kind[b] == Buf && net.ins[b][0] != b
    requires net.outs[net.ins[b][0]] != [] && u < net.Size() && v < net.Size()
    ensures Count(Bypass(net, b).outs[u], v) == Count(Bypass(net, b).ins[v], u)
  {
    var pre := net.ins[b][0];
    EdgeBothWays(net, pre, b);
    EdgeBothWays(net, b, b);
    CountDistinct(net.ins[b], u);
    CountPositive(net.outs[b], b);
    assert Count(net.outs[u], v) == Count(net.ins[v], u);
    assert Count(net.outs[b], v) == Count(net.ins[v], b);
    DropOneCount(net.outs[pre], b, v);
    CountAppend(DropOne(net.outs[pre], b), net.outs[b], v);
    if v != b {
      BypassPinsAre(net, b, pre, v);
      CountReplace(net.ins[v], b, pre, u);
    }
  }

  lemma BypassShape(net: Net, b: nat)
    requires NetOk(net) && b < net.Size() && net.kind[b] == Buf && net.ins[b][0] != b
    requires net.outs[net.ins[b][0]] != []
    ensures Shaped(Bypass(net, b))
  {
    var net' := Bypass(net, b);
    var pre := net.ins[b][0];
    var fan := net.outs[pre];
    forall n, i | 0 <= n < net.Size() && 0 <= i < |net'.outs[n]| ensures net'.outs[n][i] < net.Size() {
      if n == pre && i < |fan| - 1 {
        DropOneIn(fan, b, i);
        assert net'.outs[n][i] == DropOne(fan, b)[i];
      } else if n == pre {
        assert net'.outs[n][i] == net.outs[b][i - (|fan| - 1)];
      }
    }
    forall n, i | 0 <= n < net.Size() && 0 <= i < |net'.ins[n]| ensures net'.ins[n][i] < net.Size() {
      assert net'.ins[n] == BypassPins(net, b, pre, n);
    }
  }

  lemma BypassKeepsAgreement(net: Net, b: nat)
    requires NetOk(net) && b < net.Size() && net.kind[b] == Buf && net.ins[b][0] != b
    ensures net.outs[net.ins[b][0]] != [] && NetOk(Bypass(net, b))
  {
    var pre := net.ins[b][0];
    EdgeBothWays(net, pre, b);
    BypassShape(net, b);
    var net' := Bypass(net, b);
    forall u: nat, v: nat | u < net.Size() && v < net.Size()
      ensures Count(net'.outs[u], v) == Count(net'.ins[v], u)
    {
      BypassEdge(net, b, u, v);
    }
    forall n | 0 <= n < net.Size() ensures ArityOk(net'.kind[n], net'.ins[n], net'.outs[n]) {
      assert ArityOk(net.kind[n], net.ins[n], net.outs[n]);
      EdgeBothWays(net, b, n);
    }
  }

  /** What is known of the network after the buffer is gone, apart from values. */
  lemma BypassFacts(net: Net, b: nat, rk: seq<nat>)
    requires NetOk(net) && b < net.Size() && net.kind[b] == Buf && Ranked(net, rk)
    ensures net.ins[b][0] != b && net.outs[net.ins[b][0]] != []
    ensures NetOk(Bypass(net, b)) && Ranked(Bypass(net, b), rk)
  {
    var pre := net.ins[b][0];
    assert rk[pre] < rk[b];
    BypassKeepsAgreement(net, b);
    var net' := Bypass(net, b);
    forall v: nat, i | v < net.Size() && Comb(net'.kind[v]) && 0 <= i < |net'.ins[v]|
      ensures rk[net'.ins[v][i]] < rk[v]
    {
      BypassPinsAre(net, b, pre, v);
      assert rk[net.ins[v][i]] < rk[v];
    }
  }

  lemma {:induction false} BypassValue(net: Net, net': Net, b: nat, rk: seq<nat>, g: GateFun, env: nat -> bool, n: nat)
    requires NetOk(net) && b < net.Size() && net.kind[b] == Buf && Ranked(net, rk) && n < net.Size() && n != b
    requires net.outs[net.ins[b][0]] != [] && net' == Bypass(net, b) && NetOk(net') && Ranked(net', rk)
    ensures Val(net', rk, g, env, n) == Val(net, rk, g, env, n)
    decreases rk[n]
  {
    if Comb(net.kind[n]) {
      BypassPinsAre(net, b, net.ins[b][0], n);
      forall i | 0 <= i < |net.ins[n]|
        ensures Val(net', rk, g, env, net'.ins[n][i]) == Val(net, rk, g, env, net.ins[n][i])
      {
        assert rk[net.ins[n][i]] < rk[n];
        assert rk[net.ins[b][0]] < rk[b];
        BypassValue(net, net', b, rk, g, env, net'.ins[n][i]);
      }
      if net.kind[n] == Gate {
        assert seq(|net.ins[n]|, i requires 0 <= i < |net.ins[n]| => Val(net, rk, g, env, net.ins[n][i]))
            == seq(|net'.ins[n]|, i requires 0 <= i < |net'.ins[n]| => Val(net', rk, g, env, net'.ins[n][i]));
      }
    }
  }

  lemma BypassPoint(net: Net, net': Net, b: nat, rk: seq<nat>, rk': seq<nat>, g: GateFun, env: nat -> bool, n: nat)
    requires NetOk(net) && b < net.Size() && net.kind[b] == Buf && Ranked(net, rk) && n < net.Size() && n != b
    requires net.outs[net.ins[b][0]] != [] && net' == Bypass(net, b) && NetOk(net')
    requires Ranked(net', rk) && Ranked(net', rk')
    ensures Val(net, rk, g, env, n) == Val(net', rk', g, env, n)
    ensures Sampled(net, rk, g, env, n) == Sampled(net', rk', g, env, n)
  {
    assert rk[net.ins[b][0]] < rk[b];
    BypassPinsAre(net, b, net.ins[b][0], n);
    BypassValue(net, net', b, rk, g, env, n);
    ValIgnoresRanking(net', rk, rk', g, env, n);
    if net.kind[n] == Latch {
      BypassValue(net, net', b, rk, g, env, net'.ins[n][0]);
      ValIgnoresRanking(net', rk, rk', g, env, net'.ins[n][0]);
    }
  }

  lemma BypassSameValues(net: Net, net': Net, b: nat)
    requires NetOk(net) && b < net.Size() && net.kind[b] == Buf
    requires net.outs[net.ins[b][0]] != [] && net' == Bypass(net, b) && NetOk(net')
    requires forall rk :: Ranked(net, rk) ==> Ranked(net', rk)
    ensures SameValues(net, net')
  {
    hide Val, Sampled, Agree, ArityOk, Bypass;
    BufArity(net, b);
    assert net'.kind[b] == Freed by { BypassFrees(net, b); }
    forall rk, rk', g: GateFun, env: nat -> bool, n: nat
      | Ranked(net, rk) && Ranked(net', rk') && n < net.Size() && net'.kind[n] != Freed
      ensures Val(net, rk, g, env, n) == Val(net', rk', g, env, n)
      ensures Sampled(net, rk, g, env, n) == Sampled(net', rk', g, env, n)
    {
      BypassPoint(net, net', b, rk, rk', g, env, n);
    }
  }

  lemma BufArity(net: Net, b: nat)
    requires NetOk(net) && b < net.Size() && net.kind[b] == Buf
    ensures |net.ins[b]| == 1
  {
    hide Agree;
  }

  lemma BypassFrees(net: Net, b: nat)
    requires Shaped(net) && b < net.Size() && |net.ins[b]| == 1 && net.outs[net.ins[b][0]] != []
    ensures Bypass(net, b).Size() == net.Size() && Bypass(net, b).kind[b] == Freed
  {
  }

  /** Taking a buffer out changes no surviving node's value and no latch's next state. */
  lemma BypassKeepsMeaning(net: Net, b: nat)
    requires NetOk(net) && Acyclic(net) && b < net.Size() && net.kind[b] == Buf
    ensures net.ins[b][0] != b && net.outs[net.ins[b][0]] != []
    ensures NetOk(Bypass(net, b)) && Acyclic(Bypass(net, b)) && SameMeaning(net, Bypass(net, b))
  {
    var rk0 :| Ranked(net, rk0);
    BypassFacts(net, b, rk0);
    var net' := Bypass(net, b);
    forall rk | Ranked(net, rk) ensures Ranked(net', rk) {
      BypassFacts(net, b, rk);
    }
    BypassSameValues(net, net', b);
  }
}
