/** The passes over the whole network that run before packing (lgkntwk_common.c). */
module NetworkPasses {
  import opened Seqs
  import opened LogicNetwork
  import opened BufferEdits

  /** The linked list and the array both hold every gate once; latches holds every latch once. */
  ghost predicate ListsOk(net: Net) {
    && Distinct(net.list) && Distinct(net.gates) && Distinct(net.latches)
    && (forall n: nat :: n in net.list <==> net.IsGate(n))
    && (forall n: nat :: n in net.gates <==> net.IsGate(n))
    && (forall n: nat :: n in net.latches <==> net.IsLatch(n))
  }

  ghost predicate Prepared(net: Net) {
    NetOk(net) && Acyclic(net) && ListsOk(net)
  }

  ghost function EmptyNet(): (net: Net)
    ensures Prepared(net)
  {
    var net := Net([], [], [], [], [], [], [], [], [], []);
    assert Ranked(net, []);
    net
  }

  /** A network whose edges agree, whose combinational part is acyclic and whose lists are right. */
  type Netlist = net: Net | Prepared(net)
    ghost witness EmptyNet()

  function WithoutBufs(net: Net, s: seq<nat>): seq<nat>
  {
    if s == [] then []
    else (if s[0] < net.Size() && net.kind[s[0]] == Buf then [] else [s[0]]) + WithoutBufs(net, s[1..])
  }

  lemma {:induction false} WithoutBufsIn(net: Net, s: seq<nat>)
    requires Distinct(s)
    ensures forall n: nat :: n in WithoutBufs(net, s) <==> n in s && !(n < net.Size() && net.kind[n] == Buf)
    ensures Distinct(WithoutBufs(net, s))
  {
    if s != [] {
      WithoutBufsIn(net, s[1..]);
      assert s == [s[0]] + s[1..];
      assert s[0] !in s[1..];
      var r := WithoutBufs(net, s);
      var t := WithoutBufs(net, s[1..]);
      if r != t {
        assert r == [s[0]] + t;
        assert s[0] !in t;
      }
    }
  }

  /** The gates that stay keep their order. */
  lemma {:induction false} WithoutBufsOrder(net: Net, s: seq<nat>, i: nat, j: nat) returns (p: nat, q: nat)
    requires i < j < |WithoutBufs(net, s)|
    ensures p < q < |s| && s[p] == WithoutBufs(net, s)[i] && s[q] == WithoutBufs(net, s)[j]
  {
    var rest := WithoutBufs(net, s[1..]);
    if WithoutBufs(net, s) == rest {
      p, q := WithoutBufsOrder(net, s[1..], i, j);
      p, q := p + 1, q + 1;
    } else {
      assert WithoutBufs(net, s) == [s[0]] + rest;
      if i > 0 {
        p, q := WithoutBufsOrder(net, s[1..], i - 1, j - 1);
        p, q := p + 1, q + 1;
      } else {
        p := 0;
        q := WithoutBufsFrom(net, s[1..], j - 1);
        q := q + 1;
      }
    }
  }

  lemma {:induction false} WithoutBufsFrom(net: Net, s: seq<nat>, j: nat) returns (q: nat)
    requires j < |WithoutBufs(net, s)|
    ensures q < |s| && s[q] == WithoutBufs(net, s)[j]
  {
    var rest := WithoutBufs(net, s[1..]);
    if WithoutBufs(net, s) == rest {
      q := WithoutBufsFrom(net, s[1..], j);
      q := q + 1;
    } else {
      assert WithoutBufs(net, s) == [s[0]] + rest;
      q := 0;
      if j > 0 {
        q := WithoutBufsFrom(net, s[1..], j - 1);
        q := q + 1;
      }
    }
  }

  lemma {:induction false} WithoutBufsAppend(net: Net, s: seq<nat>, t: seq<nat>)
    ensures WithoutBufs(net, s + t) == WithoutBufs(net, s) + WithoutBufs(net, t)
  {
    if s == [] {
      assert s + t == t;
    } else {
      assert (s + t)[1..] == s[1..] + t;
      WithoutBufsAppend(net, s[1..], t);
    }
  }

  // ----- remove_buf_lgkntwk

  /** The network once the first k nodes of the gate list have been visited. */
  ghost function BypassFirst(net: Netlist, k: nat): (r: Net)
    requires k <= |net.list|
    ensures NetOk(r) && Acyclic(r) && r.Size() == net.Size() && SameMeaning(net, r)
    ensures forall n: nat :: n < net.Size() ==>
      r.kind[n] == if n in net.list[..k] && net.kind[n] == Buf then Freed else net.kind[n]
    ensures r.list == net.list && r.gates == net.gates && r.latches == net.latches
    ensures r.mapped == net.mapped && r.bleOf == net.bleOf && r.cellOf == net.cellOf && r.tried == net.tried
  {
    if k == 0 then
      SameMeaningRefl(net);
      net
    else
      var p := BypassFirst(net, k - 1);
      var n := net.list[k - 1];
      assert n in net.list;
      assert net.list[..k] == net.list[..k - 1] + [n];
      assert n !in net.list[..k - 1];
      if net.kind[n] == Buf then
        BypassKeepsMeaning(p, n);
        SameMeaningTrans(net, p, Bypass(p, n));
        Bypass(p, n)
      else p
  }

  /** Every buffer taken out, and both gate lists rebuilt in the old order. */
  ghost function RemoveBufs(net: Netlist): Net
  {
    BypassFirst(net, |net.list|).(list := WithoutBufs(net, net.list), gates := WithoutBufs(net, net.list))
  }

  lemma ListsKeepShape(b: Net, list: seq<nat>, gates: seq<nat>)
    requires NetOk(b)
    ensures NetOk(b.(list := list, gates := gates))
    ensures forall rk :: Ranked(b, rk) <==> Ranked(b.(list := list, gates := gates), rk)
  {
    var c := b.(list := list, gates := gates);
    forall u: nat, v: nat | u < c.Size() && v < c.Size() ensures Count(c.outs[u], v) == Count(c.ins[v], u) {
      assert Count(b.outs[u], v) == Count(b.ins[v], u);
    }
  }

  lemma SameMeaningOfLists(a: Net, b: Net, list: seq<nat>, gates: seq<nat>)
    requires NetOk(a) && NetOk(b) && SameMeaning(a, b) && Acyclic(b)
    ensures NetOk(b.(list := list, gates := gates)) && Acyclic(b.(list := list, gates := gates))
    ensures SameMeaning(a, b.(list := list, gates := gates))
  {
    hide Val, Agree, ArityOk;
    var c := b.(list := list, gates := gates);
    ListsKeepShape(b, list, gates);
    forall rk, rk', g: GateFun, env: nat -> bool, n: nat
      | Ranked(a, rk) && Ranked(c, rk') && n < a.Size() && c.kind[n] != Freed
      ensures Val(a, rk, g, env, n) == Val(c, rk', g, env, n)
      ensures Sampled(a, rk, g, env, n) == Sampled(c, rk', g, env, n)
    {
      assert Ranked(b, rk');
      SampledIgnoresLists(b, c, rk', g, env, n);
    }
  }

  lemma SampledIgnoresLists(b: Net, c: Net, rk: seq<nat>, g: GateFun, env: nat -> bool, n: nat)
    requires NetOk(b) && NetOk(c) && Ranked(b, rk) && Ranked(c, rk) && n < b.Size()
    requires c.kind == b.kind && c.ins == b.ins
    ensures Val(b, rk, g, env, n) == Val(c, rk, g, env, n)
    ensures Sampled(b, rk, g, env, n) == Sampled(c, rk, g, env, n)
  {
    hide Val;
    ValIgnoresLists(b, c, rk, g, env, n);
    if c.kind[n] == Latch {
      ValIgnoresLists(b, c, rk, g, env, c.ins[n][0]);
    }
  }

  lemma {:induction false} ValIgnoresLists(b: Net, c: Net, rk: seq<nat>, g: GateFun, env: nat -> bool, n: nat)
    requires NetOk(b) && NetOk(c) && Ranked(b, rk) && Ranked(c, rk) && n < b.Size()
    requires c.kind == b.kind && c.ins == b.ins
    ensures Val(b, rk, g, env, n) == Val(c, rk, g, env, n)
    decreases rk[n]
  {
    if Comb(b.kind[n]) {
      forall i | 0 <= i < |b.ins[n]| ensures Val(b, rk, g, env, b.ins[n][i]) == Val(c, rk, g, env, b.ins[n][i]) {
        ValIgnoresLists(b, c, rk, g, env, b.ins[n][i]);
      }
      if b.kind[n] == Gate {
        assert seq(|b.ins[n]|, i requires 0 <= i < |b.ins[n]| => Val(b, rk, g, env, b.ins[n][i]))
            == seq(|c.ins[n]|, i requires 0 <= i < |c.ins[n]| => Val(c, rk, g, env, c.ins[n][i]));
      }
    }
  }

  /** Whatever chains of buffers there are, in whatever list order: the buffers are gone, the edges
      agree, the lists are right, and every remaining node computes what it did. */
  lemma RemoveBufsIsSound(net: Netlist)
    ensures var r := RemoveBufs(net);
      && Prepared(r) && SameMeaning(net, r)
      && (forall n: nat :: n < net.Size() ==> r.kind[n] == if net.kind[n] == Buf then Freed else net.kind[n])
  {
    var p := BypassFirst(net, |net.list|);
    assert net.list[..|net.list|] == net.list;
    var kept := WithoutBufs(net, net.list);
    SameMeaningOfLists(net, p, kept, kept);
    WithoutBufsIn(net, net.list);
    var r := RemoveBufs(net);
    forall n: nat ensures n in kept <==> r.IsGate(n) {
      assert n in net.list <==> net.IsGate(n);
    }
    forall n: nat ensures n in r.latches <==> r.IsLatch(n) {
      assert n in net.latches <==> net.IsLatch(n);
    }
  }

  // ----- add_buf_latches

  /** A buffer before the latch, entered into both gate lists. */
  function BufferLatch(net: Net, latch: nat): Net
    requires NetOk(net) && latch < net.Size() && net.kind[latch] == Latch
  {
    AddBufKeepsAgreement(net, latch, 0);
    EnterInputBufs(AddBuf(net, latch, 0), latch)
  }

  lemma BufferLatchIs(net: Net, latch: nat)
    requires NetOk(net) && latch < net.Size() && net.kind[latch] == Latch
    ensures BufferLatch(net, latch)
         == AddBuf(net, latch, 0).(list := [net.Size()] + net.list, gates := net.gates + [net.Size()])
  {
    AddBufKeepsAgreement(net, latch, 0);
    var mid := AddBuf(net, latch, 0);
    assert mid.ins[latch] == [net.Size()];
    assert mid.ins[latch][1..] == [];
    assert BufsOf(mid, mid.ins[latch]) == [net.Size()];
    assert Reverse([net.Size()]) == [net.Size()];
  }

  lemma BufferLatchIsSound(net: Netlist, latch: nat)
    requires latch < net.Size() && net.kind[latch] == Latch
    ensures var r := BufferLatch(net, latch); Prepared(r) && SameMeaning(net, r)
  {
    AddBufKeepsMeaning(net, latch, 0);
    BufferLatchIs(net, latch);
    var mid := AddBuf(net, latch, 0);
    SameMeaningOfLists(net, mid, [net.Size()] + net.list, net.gates + [net.Size()]);
    BufferLatchLists(net, latch);
  }

  lemma BufferLatchLists(net: Net, latch: nat)
    requires NetOk(net) && ListsOk(net) && latch < net.Size() && net.kind[latch] == Latch
    ensures ListsOk(BufferLatch(net, latch))
  {
    BufferLatchIs(net, latch);
    var r := BufferLatch(net, latch);
    var b: nat := net.Size();
    forall n: nat
      ensures n in r.list <==> r.IsGate(n)
      ensures n in r.gates <==> r.IsGate(n)
      ensures n in r.latches <==> r.IsLatch(n)
    {
      assert n in net.list <==> net.IsGate(n);
      assert n in net.gates <==> net.IsGate(n);
      assert n in net.latches <==> net.IsLatch(n);
    }
    assert b !in net.list && b !in net.gates by {
      assert b in net.list <==> net.IsGate(b);
      assert b in net.gates <==> net.IsGate(b);
    }
  }

  /** lgknd_fanout_comb_num: the fan-out entries that are not latches. */
  function CombFanout(net: Net, n: nat): nat
    requires Shaped(net) && n < net.Size()
  {
    NonLatches(net, net.outs[n])
  }

  function NonLatches(net: Net, s: seq<nat>): nat {
    if s == [] then 0 else (if net.IsLatch(s[0]) then 0 else 1) + NonLatches(net, s[1..])
  }

  lemma {:induction false} NonLatchesAppend(net: Net, s: seq<nat>, t: seq<nat>)
    ensures NonLatches(net, s + t) == NonLatches(net, s) + NonLatches(net, t)
  {
    if s == [] {
      assert s + t == t;
    } else {
      assert (s + t)[1..] == s[1..] + t;
      NonLatchesAppend(net, s[1..], t);
    }
  }

  /** Replacing a latch by a new non-latch adds one to the combinational fan-out. */
  lemma {:induction false} NonLatchesUpdate(net: Net, net': Net, s: seq<nat>, i: nat, b: nat)
    requires i < |s| && net.IsLatch(s[i]) && !net'.IsLatch(b)
    requires forall j :: 0 <= j < |s| ==> net.IsLatch(s[j]) == net'.IsLatch(s[j])
    ensures NonLatches(net', s[i := b]) == NonLatches(net, s) + 1
  {
    if i == 0 {
      NonLatchesSame(net, net', s[1..]);
      assert s[i := b][1..] == s[1..];
    } else {
      NonLatchesUpdate(net, net', s[1..], i - 1, b);
      assert s[i := b][1..] == s[1..][i - 1 := b];
    }
  }

  lemma {:induction false} NonLatchesSame(net: Net, net': Net, s: seq<nat>)
    requires forall j :: 0 <= j < |s| ==> net.IsLatch(s[j]) == net'.IsLatch(s[j])
    ensures NonLatches(net, s) == NonLatches(net', s)
  {
    if s != [] {
      NonLatchesSame(net, net', s[1..]);
    }
  }

  /** A driver whose fan-out is too wide to share its output with a latch. */
  predicate Crowded(net: Net, strict: bool, blendNum: nat, d: nat)
    requires Shaped(net) && d < net.Size()
  {
    if strict then 1 < |net.outs[d]| else blendNum < CombFanout(net, d)
  }

  predicate NeedsBuf(net: Net, strict: bool, blendNum: nat, latch: nat)
    requires NetOk(net) && latch < net.Size() && net.kind[latch] == Latch
  {
    var d := net.ins[latch][0];
    net.kind[d] == Latch || net.kind[d] == Pi || Crowded(net, strict, blendNum, d)
  }

  /** What add_buf_latches does for one latch. */
  ghost function BufferAt(net: Netlist, strict: bool, blendNum: nat, latch: nat): (r: Netlist)
    requires net.IsLatch(latch)
    ensures SameMeaning(net, r) && r.latches == net.latches && net.kind <= r.kind
    ensures forall n: nat :: net.Size() <= n < r.Size() ==> r.kind[n] == Buf
  {
    if NeedsBuf(net, strict, blendNum, latch) then
      BufferLatchIsSound(net, latch);
      BufferLatchIs(net, latch);
      BufferLatch(net, latch)
    else
      SameMeaningRefl(net);
      net
  }

  /** The network once the first k latches have been looked at. */
  ghost function BufferFirst(net: Netlist, strict: bool, blendNum: nat, k: nat): (r: Netlist)
    requires k <= |net.latches|
    ensures SameMeaning(net, r) && r.latches == net.latches && net.kind <= r.kind
    ensures forall n: nat :: net.Size() <= n < r.Size() ==> r.kind[n] == Buf
  {
    if k == 0 then
      SameMeaningRefl(net);
      net
    else
      var p := BufferFirst(net, strict, blendNum, k - 1);
      assert p.latches[k - 1] in p.latches;
      var r := BufferAt(p, strict, blendNum, p.latches[k - 1]);
      SameMeaningTrans(net, p, r);
      r
  }

  ghost function AddBufLatches(net: Netlist, strict: bool, blendNum: nat): Netlist
  {
    BufferFirst(net, strict, blendNum, |net.latches|)
  }

  /** What packing needs of latches: a gate or a buffer drives each, a buffer drives one latch and
      nothing else, and no gate drives both a latch and a buffer. */
  ghost predicate LatchReady(net: Net)
    requires Shaped(net)
  {
    && (forall l: nat {:trigger net.ins[l]} :: l < net.Size() && net.kind[l] == Latch ==>
      |net.ins[l]| == 1 && net.IsGate(net.ins[l][0]))
    && (forall b: nat {:trigger net.outs[b]} :: b < net.Size() && net.kind[b] == Buf ==>
      |net.outs[b]| == 1 && net.IsLatch(net.outs[b][0]))
    && (forall d: nat, i, j | d < net.Size() && net.kind[d] == Gate && 0 <= i < |net.outs[d]| && 0 <= j < |net.outs[d]|
          :: net.IsLatch(net.outs[d][i]) ==> net.kind[net.outs[d][j]] != Buf)
  }

  /** The state of add_buf_latches after k latches. */
  ghost predicate Buffering(net: Netlist, strict: bool, blendNum: nat, k: nat)
    requires k <= |net.latches|
  {
    && (forall i :: 0 <= i < k && net.IsLatch(net.latches[i]) ==>
          var d := net.ins[net.latches[i]][0];
          net.kind[d] == Buf || (net.kind[d] != Latch && net.kind[d] != Pi && !Crowded(net, strict, blendNum, d)))
    && (forall b: nat {:trigger net.outs[b]} :: b < net.Size() && net.kind[b] == Buf ==>
      |net.outs[b]| == 1 && net.IsLatch(net.outs[b][0]))
    && (forall d: nat, j | d < net.Size() && net.kind[d] == Gate && 0 <= j < |net.outs[d]|
          :: net.kind[net.outs[d][j]] == Buf ==> Crowded(net, strict, blendNum, d))
  }

  /** Buffering one latch leaves other drivers as crowded as they were, and a crowded one crowded. */
  lemma CrowdedAfter(net: Netlist, strict: bool, blendNum: nat, latch: nat, d: nat)
    requires latch < net.Size() && net.kind[latch] == Latch && d < net.Size()
    ensures var r := BufferLatch(net, latch);
      NetOk(r)
      && (d != net.ins[latch][0] ==>
        r.outs[d] == net.outs[d] && Crowded(r, strict, blendNum, d) == Crowded(net, strict, blendNum, d))
      && (Crowded(net, strict, blendNum, d) ==> Crowded(r, strict, blendNum, d))
  {
    BufferLatchIsSound(net, latch);
    BufferLatchIs(net, latch);
    var r := BufferLatch(net, latch);
    forall j | 0 <= j < |net.outs[d]| ensures net.IsLatch(net.outs[d][j]) == r.IsLatch(net.outs[d][j]) {
    }
    if d == net.ins[latch][0] {
      EdgeBothWays(net, d, latch);
      NonLatchesUpdate(net, r, net.outs[d], IndexOf(net.outs[d], latch), net.Size());
    } else {
      NonLatchesSame(net, r, net.outs[d]);
    }
  }

  lemma BufIsNotCrowded(net: Net, strict: bool, blendNum: nat, b: nat)
    requires NetOk(net) && b < net.Size() && |net.outs[b]| == 1 && net.IsLatch(net.outs[b][0])
    ensures !Crowded(net, strict, blendNum, b)
  {
    assert net.outs[b][1..] == [];
    assert NonLatches(net, net.outs[b]) == NonLatches(net, net.outs[b][1..]);
  }

  lemma LatchDriver(net: Net, latch: nat)
    requires NetOk(net) && net.IsLatch(latch)
    ensures |net.ins[latch]| == 1
    ensures var d := net.ins[latch][0]; latch in net.outs[d] && net.kind[d] != Po && net.kind[d] != Freed
  {
    EdgeBothWays(net, net.ins[latch][0], latch);
  }

  lemma BufferStep(net: Netlist, strict: bool, blendNum: nat, k: nat)
    requires k < |net.latches| && Buffering(net, strict, blendNum, k)
    requires net.IsLatch(net.latches[k]) && NeedsBuf(net, strict, blendNum, net.latches[k])
    ensures var r := BufferLatch(net, net.latches[k]);
      Prepared(r) && r.latches == net.latches && Buffering(r, strict, blendNum, k + 1)
  {
    hide Crowded, Agree, ArityOk, SameMeaning, BufferLatch;
    var latch := net.latches[k];
    BufferLatchIsSound(net, latch);
    BufferLatchEdges(net, latch);
    var r := BufferLatch(net, latch);
    forall i | 0 <= i < k + 1 && r.IsLatch(r.latches[i])
      ensures var e := r.ins[r.latches[i]][0];
        r.kind[e] == Buf || (r.kind[e] != Latch && r.kind[e] != Pi && !Crowded(r, strict, blendNum, e))
    {
      if i < k {
        CrowdedAfter(net, strict, blendNum, latch, net.ins[net.latches[i]][0]);
      }
    }
    BufferedBufs(net, strict, blendNum, k);
    BufferedGates(net, strict, blendNum, k);
  }

  /** What a buffer before a latch changes: the latch's driver and one fan-out entry of its old driver. */
  lemma BufferLatchEdges(net: Netlist, latch: nat)
    requires net.IsLatch(latch)
    ensures var r := BufferLatch(net, latch);
      var d := net.ins[latch][0];
      && NetOk(r) && r.Size() == net.Size() + 1 && r.latches == net.latches && r.kind == net.kind + [Buf]
      && r.ins[latch] == [net.Size()] && r.ins[net.Size()] == [d]
        && (forall v: nat :: v < net.Size() && v != latch ==> r.ins[v] == net.ins[v])
      && r.outs[net.Size()] == [latch] && |r.outs[d]| == |net.outs[d]| && latch in net.outs[d]
      && (forall j :: 0 <= j < |net.outs[d]| ==> r.outs[d][j] == net.outs[d][j] || r.outs[d][j] == net.Size())
      && (forall u: nat :: u < net.Size() && u != d ==> r.outs[u] == net.outs[u])
      && (forall l: nat :: net.IsLatch(l) ==> |net.ins[l]| == |r.ins[l]| == 1)
  {
    hide Agree, SameMeaning;
    BufferLatchIsSound(net, latch);
    BufferLatchIs(net, latch);
    LatchDriver(net, latch);
  }

  lemma BufferedBufs(net: Netlist, strict: bool, blendNum: nat, k: nat)
    requires k < |net.latches| && Buffering(net, strict, blendNum, k)
    requires net.IsLatch(net.latches[k]) && NeedsBuf(net, strict, blendNum, net.latches[k])
    ensures var r := BufferLatch(net, net.latches[k]);
      forall b: nat {:trigger r.outs[b]} :: b < r.Size() && r.kind[b] == Buf ==>
        |r.outs[b]| == 1 && r.IsLatch(r.outs[b][0])
  {
    hide Crowded, Agree, ArityOk, SameMeaning, BufferLatch;
    var latch := net.latches[k];
    BufferLatchEdges(net, latch);
    LatchDriver(net, latch);
    if net.kind[net.ins[latch][0]] == Buf {
      BufIsNotCrowded(net, strict, blendNum, net.ins[latch][0]);
    }
  }

  lemma BufferedGates(net: Netlist, strict: bool, blendNum: nat, k: nat)
    requires k < |net.latches| && Buffering(net, strict, blendNum, k)
    requires net.IsLatch(net.latches[k]) && NeedsBuf(net, strict, blendNum, net.latches[k])
    ensures var r := BufferLatch(net, net.latches[k]);
      forall e: nat, j | e < r.Size() && r.kind[e] == Gate && 0 <= j < |r.outs[e]| :: r.kind[r.outs[e][j]] == Buf ==>
        Crowded(r, strict, blendNum, e)
  {
    hide Crowded, Agree, ArityOk, SameMeaning, BufferLatch;
    var latch := net.latches[k];
    BufferLatchEdges(net, latch);
    var r := BufferLatch(net, latch);
    forall e: nat, j | e < r.Size() && r.kind[e] == Gate && 0 <= j < |r.outs[e]| && r.kind[r.outs[e][j]] == Buf
      ensures Crowded(r, strict, blendNum, e)
    {
      CrowdedAfter(net, strict, blendNum, latch, e);
    }
  }

  lemma BufferStepNot(net: Netlist, strict: bool, blendNum: nat, k: nat)
    requires k < |net.latches| && Buffering(net, strict, blendNum, k)
    requires net.IsLatch(net.latches[k]) && !NeedsBuf(net, strict, blendNum, net.latches[k])
    ensures Buffering(net, strict, blendNum, k + 1)
  {
    LatchDriver(net, net.latches[k]);
  }

  lemma BufferAtBuffers(net: Netlist, strict: bool, blendNum: nat, k: nat)
    requires k < |net.latches| && Buffering(net, strict, blendNum, k) && net.IsLatch(net.latches[k])
    ensures Buffering(BufferAt(net, strict, blendNum, net.latches[k]), strict, blendNum, k + 1)
  {
    if NeedsBuf(net, strict, blendNum, net.latches[k]) {
      BufferStep(net, strict, blendNum, k);
    } else {
      BufferStepNot(net, strict, blendNum, k);
    }
  }

  lemma BufferNone(net: Netlist, strict: bool, blendNum: nat)
    requires forall n: nat :: n < net.Size() ==> net.kind[n] != Buf
    ensures Buffering(net, strict, blendNum, 0)
  {
    hide Crowded;
  }

  lemma {:induction false} BufferFirstBuffers(net: Netlist, strict: bool, blendNum: nat, k: nat, r: Netlist)
    requires k <= |net.latches| && r == BufferFirst(net, strict, blendNum, k)
    requires forall n: nat :: n < net.Size() ==> net.kind[n] != Buf
    ensures Buffering(r, strict, blendNum, k)
  {
    hide BufferAt, Crowded, Val, SameMeaning, Buffering;
    if k == 0 {
      BufferNone(net, strict, blendNum);
    } else {
      var p := BufferFirst(net, strict, blendNum, k - 1);
      BufferFirstBuffers(net, strict, blendNum, k - 1, p);
      var latch := p.latches[k - 1];
      assert latch in p.latches;
      BufferAtBuffers(p, strict, blendNum, k - 1);
      assert r == BufferAt(p, strict, blendNum, latch);
    }
  }

  lemma LatchListed(net: Netlist, i: nat)
    requires i < |net.latches|
    ensures net.IsLatch(net.latches[i])
  {
    assert net.latches[i] in net.latches;
  }

  /** add_buf_latches on a buffer-free network keeps its meaning and makes it ready for packing. */
  lemma AddBufLatchesIsSound(net: Netlist, strict: bool, blendNum: nat)
    requires forall n: nat :: n < net.Size() ==> net.kind[n] != Buf
    ensures var r := AddBufLatches(net, strict, blendNum);
      SameMeaning(net, r) && LatchReady(r)
  {
    var k := |net.latches|;
    hide BufferFirst, Crowded, Val, SameMeaning, Agree, Acyclic, ListsOk;
    var r := AddBufLatches(net, strict, blendNum);
    BufferFirstBuffers(net, strict, blendNum, k, r);
    forall l: nat | l < r.Size() && r.kind[l] == Latch ensures |r.ins[l]| == 1 && r.IsGate(r.ins[l][0]) {
      DirectLatch(r, strict, blendNum, l);
    }
    forall d: nat, i, j | d < r.Size() && r.kind[d] == Gate && 0 <= i < |r.outs[d]| && 0 <= j < |r.outs[d]|
      && r.IsLatch(r.outs[d][i])
      ensures r.kind[r.outs[d][j]] != Buf
    {
      var l := r.outs[d][i];
      EdgeBothWays(r, d, l);
      assert r.ins[l][0] == d;
      DirectLatch(r, strict, blendNum, l);
    }
  }

  lemma DirectLatch(r: Netlist, strict: bool, blendNum: nat, l: nat)
    requires Buffering(r, strict, blendNum, |r.latches|) && r.IsLatch(l)
    ensures |r.ins[l]| == 1
    ensures var d := r.ins[l][0];
      r.IsGate(d) && (r.kind[d] == Buf || !Crowded(r, strict, blendNum, d))
  {
    LatchDriver(r, l);
    assert l in r.latches;
    var i :| 0 <= i < |r.latches| && r.latches[i] == l;
  }
}
