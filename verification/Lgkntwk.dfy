/** The mutable logic network and the in-place edits of lgkntwk_common.c. */
module LgkntwkEdits {
  import opened Seqs
  import opened LogicNetwork
  import opened BufferEdits
  import opened NetworkPasses
  import opened BufferedLatches

  /** How remove_buf_lgkntwk ends: as it should, with one of its two error exits, or with an array
      that promises more gates than were written into it. */
  datatype Sweep = Clean | StatsDiffer | TooManyGates | TailUnset

  class Lgkntwk {
    var kind: seq<Kind>
    var ins: seq<seq<nat>>
    var outs: seq<seq<nat>>
    var mapped: seq<bool>
    var bleOf: seq<int>
    var cellOf: seq<int>
    var tried: seq<seq<bool>>
    var list: seq<nat>
    var gates: seq<nat>
    var latches: seq<nat>

    constructor (net: Net)
      ensures State() == net
    {
      kind, ins, outs, mapped, bleOf := net.kind, net.ins, net.outs, net.mapped, net.bleOf;
      cellOf, tried, list, gates, latches := net.cellOf, net.tried, net.list, net.gates, net.latches;
    }

    function State(): Net
      reads this
    {
      Net(kind, ins, outs, mapped, bleOf, cellOf, tried, list, gates, latches)
    }

    /** Put buf in place of the first cur in the fan-out of drv. */
    method RedirectFanout(drv: nat, cur: nat, buf: nat)
      requires drv < |outs|
      modifies `outs
      ensures var pos := IndexOf(old(outs[drv]), cur);
        |outs| == old(|outs|)
        && outs[drv] == (if pos < 0 then old(outs[drv]) else old(outs[drv])[pos := buf])
        && forall u :: 0 <= u < |outs| && u != drv ==> outs[u] == old(outs[u])
    {
      var im := 0;
      while im < |outs[drv]|
        invariant 0 <= im <= |outs[drv]| && outs == old(outs)
        invariant forall j :: 0 <= j < im ==> outs[drv][j] != cur
      {
        if cur == outs[drv][im] {
          var row: seq<nat> := outs[drv][im := buf];
          outs := outs[drv := row];
          return;
        }
        im := im + 1;
      }
    }

    /** A fresh node of type buffer with nothing connected to it. */
    method NewBuf() returns (buf: nat)
      modifies this
      ensures buf == old(|kind|)
      ensures State() == old(State()).(kind := old(kind) + [Buf], mapped := old(mapped) + [false],
        bleOf := old(bleOf) + [-1], cellOf := old(cellOf) + [-1], tried := old(tried) + [[]],
        ins := old(ins) + [[]], outs := old(outs) + [[]])
    {
      buf := |kind|;
      kind, mapped, bleOf, cellOf := kind + [Buf], mapped + [false], bleOf + [-1], cellOf + [-1];
      tried, ins, outs := tried + [[]], ins + [[]], outs + [[]];
    }

    /** add_one_buf_lgknd */
    method AddOneBuf(cur: nat, pin: nat)
      requires Shaped(State()) && cur < |kind| && pin < |ins[cur]|
      modifies this
      ensures State() == AddBuf(old(State()), cur, pin)
    {
      hide AddBuf;
      ghost var net := State();
      var drv := ins[cur][pin];
      var buf := NewBuf();
      RedirectFanout(drv, cur, buf);
      ins := ins[buf := [drv]];
      outs := outs[buf := [cur]];
      var row: seq<nat> := ins[cur][pin := buf];
      ins := ins[cur := row];
      AddBufFields(net, cur, pin, State());
    }

    /** The first loop of add_input_bufs_lgknd_lgkntwk: the linked list. */
    method EnterList(cur: nat)
      requires Shaped(State()) && cur < |kind|
      modifies `list
      ensures list == Reverse(BufsOf(State(), ins[cur])) + old(list)
    {
      hide BufsOf, Reverse, IndexOf;
      ghost var net := State();
      var im := 0;
      BufsOfNil(net);
      assert ins[cur][..0] == [];
      while im < |ins[cur]|
        invariant 0 <= im <= |ins[cur]| && State() == net.(list := list)
        invariant list == Reverse(BufsOf(net, net.ins[cur][..im])) + net.list
      {
        EnterStep(net, net.ins[cur], im, net.list);
        if kind[ins[cur][im]] == Buf {
          list := [ins[cur][im]] + list;
        }
        im := im + 1;
      }
      assert ins[cur][..|ins[cur]|] == ins[cur];
      BufsOfIgnoresLists(net, State(), ins[cur]);
    }

    /** Its second loop: the array. */
    method EnterArray(cur: nat)
      requires Shaped(State()) && cur < |kind|
      modifies `gates
      ensures gates == old(gates) + BufsOf(State(), ins[cur])
    {
      hide BufsOf;
      var im := 0;
      assert BufsOf(State(), []) == [] by { BufsOfNil(State()); }
      assert ins[cur][..0] == [];
      while im < |ins[cur]|
        invariant 0 <= im <= |ins[cur]|
        invariant gates == old(gates) + BufsOf(old(State()), ins[cur][..im])
      {
        BufsOfSnoc(old(State()), ins[cur], im);
        if kind[ins[cur][im]] == Buf {
          gates := gates + [ins[cur][im]];
        }
        im := im + 1;
      }
      assert ins[cur][..|ins[cur]|] == ins[cur];
      BufsOfIgnoresLists(old(State()), State(), ins[cur]);
    }

    /** add_input_bufs_lgknd_lgkntwk; it reads the last entry of the gate array first. */
    method EnterBufs(cur: nat)
      requires Shaped(State()) && cur < |kind| && gates != []
      modifies `list, `gates
      ensures State() == EnterInputBufs(old(State()), cur)
    {
      ghost var net := State();
      EnterList(cur);
      BufsOfIgnoresLists(net, State(), ins[cur]);
      EnterArray(cur);
      BufsOfIgnoresLists(net, State(), ins[cur]);
    }

    /** The predecessor takes over the buffer's fan-out (remove_buf_lgkntwk, array part). */
    method SpliceFanout(pre: nat, b: nat)
      requires pre < |outs| && b < |outs| && pre != b && outs[pre] != []
      modifies `outs
      ensures outs == old(outs)[pre := DropOne(old(outs[pre]), b) + old(outs[b])]
    {
      var fan := outs[pre];
      var last := |fan| - 1;
      var im := 0;
      while im <= last
        invariant 0 <= im <= last + 1
        invariant fan == old(outs[pre]) && forall j :: 0 <= j < im ==> fan[j] != b
        decreases last - im
      {
        if b == fan[im] {
          fan := fan[im := fan[last]];
          break;
        }
        im := im + 1;
      }
      assert fan[..last] == DropOne(old(outs[pre]), b);
      fan := fan[..last];
      im := 0;
      while im < |outs[b]|
        invariant 0 <= im <= |outs[b]|
        invariant fan == DropOne(old(outs[pre]), b) + outs[b][..im]
      {
        fan := fan + [outs[b][im]];
        im := im + 1;
      }
      assert outs[b][..|outs[b]|] == outs[b];
      outs := outs[pre := fan];
    }

    /** Every pin of v that the buffer drove is driven by its predecessor. */
    method RewirePins(v: nat, b: nat, pre: nat)
      requires v < |ins|
      modifies `ins
      ensures ins == old(ins)[v := Replace(old(ins[v]), b, pre)]
    {
      var ip := 0;
      while ip < |ins[v]|
        invariant |ins| == old(|ins|) && 0 <= ip <= |ins[v]| == old(|ins[v]|)
        invariant forall u :: 0 <= u < |ins| && u != v ==> ins[u] == old(ins[u])
        invariant forall j :: 0 <= j < |ins[v]| ==>
          ins[v][j] == if j < ip && old(ins[v][j]) == b then pre else old(ins[v][j])
      {
        if b == ins[v][ip] {
          var row: seq<nat> := ins[v][ip := pre];
          ins := ins[v := row];
        }
        ip := ip + 1;
      }
      assert ins[v] == Replace(old(ins[v]), b, pre);
    }

    /** The same for every node in the buffer's fan-out, some of them more than once. */
    method RewireFanout(b: nat, pre: nat)
      requires b < |outs| && |ins| == |outs| && b != pre && forall j :: 0 <= j < |outs[b]| ==> outs[b][j] < |ins|
      modifies `ins
      ensures |ins| == old(|ins|)
      ensures forall v: nat :: v < |ins| ==>
        ins[v] == if v in outs[b] then Replace(old(ins[v]), b, pre) else old(ins[v])
    {
      var im := 0;
      while im < |outs[b]|
        invariant 0 <= im <= |outs[b]| && |ins| == old(|ins|)
        invariant forall v: nat :: v < |ins| ==>
          ins[v] == if v in outs[b][..im] then Replace(old(ins[v]), b, pre) else old(ins[v])
      {
        ghost var v := outs[b][im];
        assert outs[b][..im + 1] == outs[b][..im] + [v];
        assert Replace(Replace(old(ins[v]), b, pre), b, pre) == Replace(old(ins[v]), b, pre);
        RewirePins(outs[b][im], b, pre);
        im := im + 1;
      }
      assert outs[b][..|outs[b]|] == outs[b];
    }

    /** Take one buffer out of the network and free it. */
    method BypassBuf(b: nat)
      requires NetOk(State()) && b < |kind| && kind[b] == Buf && ins[b][0] != b && outs[ins[b][0]] != []
      modifies this
      ensures State() == Bypass(old(State()), b)
    {
      hide Agree;
      ghost var net := State();
      var pre := ins[b][0];
      RewireFanout(b, pre);
      assert forall v: nat :: v < |ins| && v != b ==> ins[v] == BypassPins(net, b, pre, v);
      SpliceFanout(pre, b);
      kind := kind[b := Freed];
      ins := ins[b := []];
      outs := outs[b := []];
      assert ins == Bypass(net, b).ins;
      assert outs == Bypass(net, b).outs;
    }

    /** One buffer taken out of the network and out of the linked list. */
    method BypassListed(tmp: nat, ghost net: Netlist, ghost k: nat)
      requires tmp < |list| && k < |net.list| && list[tmp] == net.list[k]
      requires net.list[k] < net.Size() && net.kind[net.list[k]] == Buf
      requires State().(list := net.list, gates := net.gates) == BypassFirst(net, k)
      modifies this
      ensures list == old(list)[..tmp] + old(list)[tmp + 1..] && gates == old(gates)
      ensures State().(list := net.list, gates := net.gates) == BypassFirst(net, k + 1)
    {
      hide Agree, Ranked, Distinct, SameMeaning, Bypass;
      ghost var p := BypassFirst(net, k);
      var n := list[tmp];
      BypassNext(net, k, p);
      ListsKeepShape(p, list, gates);
      assert p.(list := list, gates := gates) == State();
      BypassIgnoresLists(p, list, gates, n);
      BypassBuf(n);
      list := list[..tmp] + list[tmp + 1..];
      assert State().(list := net.list, gates := net.gates) == Bypass(p, n);
    }

    /** remove_buf_lgkntwk. newLen is the sum of the statistics other than buffers and bufStat the
        buffer count. With TailUnset the array holds the gates of the result and then newLen minus
        their number of entries that nobody has written. */
    method RemoveAllBufs(newLen: nat, bufStat: nat) returns (r: Sweep)
      requires Prepared(State())
      modifies this
      ensures r.StatsDiffer? <==> newLen + bufStat != old(|gates|)
      ensures newLen + bufStat == old(|gates|) ==>
        var left := |WithoutBufs(old(State()), old(list))|;
        (r.Clean? <==> left == newLen) && (r.TooManyGates? <==> left > newLen) && (r.TailUnset? <==> left < newLen)
      ensures r.Clean? || r.TailUnset? ==> State() == RemoveBufs(old(State()))
      ensures r.StatsDiffer? ==> State() == old(State())
    {
      hide Prepared, WithoutBufs, BypassFirst, Sweeping;
      if newLen + bufStat != |gates| {
        return StatsDiffer;
      }
      ghost var net: Netlist := State();
      gates := [];
      var tmp := 0;
      ghost var k := 0;
      SweepStart(net);
      while tmp < |list|
        invariant Sweeping(net, State(), k) && tmp == |gates| <= newLen
        decreases |list| - tmp
      {
        ghost var state := State();
        SweepAt(net, state, k);
        var n := list[tmp];
        if kind[n] == Buf {
          BypassListed(tmp, net, k);
          SweepDrops(net, state, k, State());
        } else {
          SweepKeeps(net, state, k);
          if tmp > newLen - 1 {
            SweepOver(net, state, k);
            return TooManyGates;
          }
          gates := gates + [n];
          tmp := tmp + 1;
        }
        k := k + 1;
      }
      SweepEnd(net, State(), k);
      r := if |gates| == newLen then Clean else TailUnset;
    }

    /** lgknd_fanout_comb_num */
    method FanoutCombNum(n: nat) returns (combNum: nat)
      requires Shaped(State()) && n < |kind|
      ensures combNum == CombFanout(State(), n)
    {
      combNum := 0;
      for i := 0 to |outs[n]|
        invariant combNum == NonLatches(State(), outs[n][..i])
      {
        assert outs[n][..i + 1] == outs[n][..i] + [outs[n][i]];
        NonLatchesAppend(State(), outs[n][..i], [outs[n][i]]);
        assert NonLatches(State(), [outs[n][i]]) == if kind[outs[n][i]] == Latch then 0 else 1;
        if kind[outs[n][i]] != Latch {
          combNum := combNum + 1;
        }
      }
      assert outs[n][..|outs[n]|] == outs[n];
    }

    /** Whether add_buf_latches puts a buffer before this latch. */
    method WantsBuf(strict: bool, blendNum: nat, latch: nat) returns (needed: bool)
      requires NetOk(State()) && latch < |kind| && kind[latch] == Latch
      ensures needed == NeedsBuf(State(), strict, blendNum, latch)
      ensures |ins[latch]| == 1 && needed == TooWide(State(), strict, blendNum, ins[latch][0])
    {
      NeedsBufExactly(State(), strict, blendNum, latch);
      var d := ins[latch][0];
      if kind[d] == Latch || kind[d] == Pi {
        needed := true;
      } else if strict {
        needed := 1 < |outs[d]|;
      } else {
        var comb := FanoutCombNum(d);
        needed := blendNum < comb;
      }
    }

    /** The two calls that put a buffer before a latch and enter it into the lists. */
    method BufferOne(latch: nat)
      requires NetOk(State()) && latch < |kind| && kind[latch] == Latch && gates != []
      modifies this
      ensures State() == BufferLatch(old(State()), latch)
    {
      AddBufKeepsAgreement(State(), latch, 0);
      AddOneBuf(latch, 0);
      EnterBufs(latch);
    }

    /** add_buf_latches; the number of added buffers is what the statistics grow by. ok is false where
        the source reads in front of the gate array: exactly when there are latches but no gate. */
    method AddBufsBeforeLatches(strict: bool, blendNum: nat) returns (ok: bool, bufNum: nat)
      requires Prepared(State())
      modifies this
      ensures ok <==> old(gates) != [] || old(latches) == []
      ensures State() == if ok then AddBufLatches(old(State()), strict, blendNum) else old(State())
      ensures |kind| == old(|kind|) + bufNum
      ensures NetOk(old(State()))
      ensures ok ==> bufNum == |set l: nat | l < old(|kind|) && WideAt(old(State()), strict, blendNum, l)|
    {
      hide SameMeaning, NeedsBuf, BufferLatch, NetOk, ListsOk, Acyclic, WideAt, TooWide, DrivenBy;
      ghost var net: Netlist := State();
      bufNum := 0;
      var im := 0;
      while im < |latches|
        invariant 0 <= im <= |latches| && latches == net.latches
        invariant State() == BufferFirst(net, strict, blendNum, im)
        invariant |kind| == |net.kind| + bufNum && |gates| >= |net.gates|
        invariant im > 0 ==> net.gates != []
      {
        ghost var p: Netlist := State();
        var latch := latches[im];
        LatchListed(p, im);
        var needed := WantsBuf(strict, blendNum, latch);
        if needed {
          if gates == [] {
            return false, 0;
          }
          BufferOne(latch);
          BufferLatchIs(p, latch);
          bufNum := bufNum + 1;
        } else if net.gates == [] {
          NoGateMeansBuf(net, strict, blendNum, latch);
        }
        assert State() == BufferAt(p, strict, blendNum, latch);
        im := im + 1;
      }
      ok := true;
      BufferedExactly(net, strict, blendNum);
    }
  }

  /** Without gates only ports and latches can drive a latch. */
  lemma NoGateMeansBuf(net: Netlist, strict: bool, blendNum: nat, latch: nat)
    requires net.gates == [] && net.IsLatch(latch)
    ensures NeedsBuf(net, strict, blendNum, latch)
  {
    hide Agree, Acyclic, Crowded;
    LatchDriver(net, latch);
    var d := net.ins[latch][0];
    assert net.IsGate(d) ==> d in net.gates;
  }

  lemma WithoutBufsNil(net: Net)
    ensures WithoutBufs(net, []) == []
  {
  }

  /** remove_buf_lgkntwk after the first k nodes of the old list: the gates kept so far, then the rest. */
  ghost predicate Sweeping(net: Netlist, state: Net, k: nat) {
    && k <= |net.list| && state.list == state.gates + net.list[k..]
    && state.gates == WithoutBufs(net, net.list[..k])
    && state.(list := net.list, gates := net.gates) == BypassFirst(net, k)
  }

  lemma SweepStart(net: Netlist)
    ensures Sweeping(net, net.(gates := []), 0)
  {
    hide BypassFirst, WithoutBufs;
    BypassNone(net);
    WithoutBufsNil(net);
    assert net.list[..0] == [] && [] + net.list[0..] == net.list;
  }

  lemma SweepAt(net: Netlist, state: Net, k: nat)
    requires Sweeping(net, state, k) && |state.gates| < |state.list|
    ensures k < |net.list| && state.list[|state.gates|] == net.list[k] && net.list[k] < net.Size() == state.Size()
    ensures state.kind[net.list[k]] == net.kind[net.list[k]]
    ensures state.(list := net.list, gates := net.gates) == BypassFirst(net, k)
  {
    hide WithoutBufs, BypassFirst;
    BypassNext(net, k, BypassFirst(net, k));
  }

  lemma SweepDrops(net: Netlist, state: Net, k: nat, state': Net)
    requires Sweeping(net, state, k) && k < |net.list| && net.list[k] < net.Size() && net.kind[net.list[k]] == Buf
    requires state'.list == state.list[..|state.gates|] + state.list[|state.gates| + 1..] && state'.gates == state.gates
    requires state'.(list := net.list, gates := net.gates) == BypassFirst(net, k + 1)
    ensures Sweeping(net, state', k + 1) && |state'.list| == |state.list| - 1
  {
    hide WithoutBufs, BypassFirst, Prepared;
    WithoutBufsNext(net, k);
    DropAfter(state.gates, net.list, k);
  }

  lemma DropAfter(s: seq<nat>, t: seq<nat>, k: nat)
    requires k < |t|
    ensures (s + t[k..])[..|s|] + (s + t[k..])[|s| + 1..] == s + t[k + 1..]
  {
  }

  lemma WithoutBufsNext(net: Net, k: nat)
    requires k < |net.list| && net.list[k] < net.Size()
    ensures WithoutBufs(net, net.list[..k + 1])
         == if net.kind[net.list[k]] == Buf then WithoutBufs(net, net.list[..k])
           else WithoutBufs(net, net.list[..k]) + [net.list[k]]
  {
    hide WithoutBufs;
    assert net.list[..k + 1] == net.list[..k] + [net.list[k]];
    WithoutBufsSnoc(net, net.list[..k], net.list[k]);
  }

  lemma SweepKeeps(net: Netlist, state: Net, k: nat)
    requires Sweeping(net, state, k) && k < |net.list| && net.list[k] < net.Size() && net.kind[net.list[k]] != Buf
    ensures Sweeping(net, state.(gates := state.gates + [net.list[k]]), k + 1)
  {
    hide WithoutBufs, BypassFirst, Prepared;
    WithoutBufsNext(net, k);
    BypassNext(net, k, BypassFirst(net, k));
    assert state.list == (state.gates + [net.list[k]]) + net.list[k + 1..];
  }

  /** One gate more than the array holds means that too many gates remain in all. */
  lemma SweepOver(net: Netlist, state: Net, k: nat)
    requires Sweeping(net, state, k) && k < |net.list| && net.list[k] < net.Size() && net.kind[net.list[k]] != Buf
    ensures |state.gates| + 1 <= |WithoutBufs(net, net.list)|
  {
    hide WithoutBufs, BypassFirst;
    WithoutBufsNext(net, k);
    WithoutBufsPrefix(net, net.list, k + 1);
  }

  lemma SweepEnd(net: Netlist, state: Net, k: nat)
    requires Sweeping(net, state, k) && |state.gates| >= |state.list|
    ensures state == RemoveBufs(net) && state.gates == WithoutBufs(net, net.list)
  {
    hide WithoutBufs, BypassFirst;
    assert net.list[..k] == net.list && net.list[k..] == [];
  }

  lemma BypassNone(net: Netlist)
    ensures BypassFirst(net, 0) == net
  {
  }

  lemma WithoutBufsSnoc(net: Net, s: seq<nat>, n: nat)
    ensures WithoutBufs(net, s + [n])
         == if n < net.Size() && net.kind[n] == Buf then WithoutBufs(net, s) else WithoutBufs(net, s) + [n]
  {
    WithoutBufsAppend(net, s, [n]);
    assert [n][1..] == [];
  }

  lemma WithoutBufsPrefix(net: Net, s: seq<nat>, k: nat)
    requires k <= |s|
    ensures |WithoutBufs(net, s[..k])| <= |WithoutBufs(net, s)|
  {
    assert s == s[..k] + s[k..];
    WithoutBufsAppend(net, s[..k], s[k..]);
  }

  /** One more node of the list visited. */
  lemma BypassNext(net: Netlist, k: nat, p: Net)
    requires k < |net.list| && p == BypassFirst(net, k)
    ensures NetOk(p) && Acyclic(p) && p.Size() == net.Size() && net.list[k] < net.Size()
    ensures p.kind[net.list[k]] == net.kind[net.list[k]]
    ensures net.kind[net.list[k]] == Buf ==>
      p.ins[net.list[k]][0] != net.list[k] && p.outs[p.ins[net.list[k]][0]] != []
      && BypassFirst(net, k + 1) == Bypass(p, net.list[k])
    ensures net.kind[net.list[k]] != Buf ==> BypassFirst(net, k + 1) == p
  {
    hide Agree, SameMeaning, Bypass, Val;
    var n := net.list[k];
    assert n in net.list;
    assert n !in net.list[..k];
    if net.kind[n] == Buf {
      BypassKeepsMeaning(p, n);
    }
  }

  lemma BypassIgnoresLists(net: Net, list: seq<nat>, gates: seq<nat>, b: nat)
    requires Shaped(net) && b < net.Size() && |net.ins[b]| == 1 && net.outs[net.ins[b][0]] != []
    ensures Bypass(net.(list := list, gates := gates), b) == Bypass(net, b).(list := list, gates := gates)
  {
    var pre := net.ins[b][0];
    assert forall v: nat :: v < net.Size() ==>
      BypassPins(net, b, pre, v) == BypassPins(net.(list := list, gates := gates), b, pre, v);
  }

  lemma AddBufFields(net: Net, cur: nat, pin: nat, r: Net)
    requires Shaped(net) && cur < net.Size() && pin < |net.ins[cur]|
    requires r == net.(kind := net.kind + [Buf], mapped := net.mapped + [false],
      bleOf := net.bleOf + [-1], cellOf := net.cellOf + [-1], tried := net.tried + [[]],
      ins := r.ins, outs := r.outs)
    requires |r.ins| == net.Size() + 1 && r.ins[net.Size()] == [net.ins[cur][pin]]
    requires r.ins[cur] == net.ins[cur][pin := net.Size()]
    requires forall u :: 0 <= u < net.Size() && u != cur ==> r.ins[u] == net.ins[u]
    requires |r.outs| == net.Size() + 1 && r.outs[net.Size()] == [cur]
    requires var drv := net.ins[cur][pin];
      var pos := IndexOf(net.outs[drv], cur);
      r.outs[drv] == (if pos < 0 then net.outs[drv] else net.outs[drv][pos := net.Size()])
    requires forall u :: 0 <= u < net.Size() && u != net.ins[cur][pin] ==> r.outs[u] == net.outs[u]
    ensures r == AddBuf(net, cur, pin)
  {
    assert r.ins == AddBuf(net, cur, pin).ins;
    assert r.outs == AddBuf(net, cur, pin).outs;
  }

  lemma BufsOfNil(net: Net)
    ensures BufsOf(net, []) == [] && Reverse([]) == []
  {
  }

  lemma {:induction false} BufsOfAppend(net: Net, s: seq<nat>, t: seq<nat>)
    requires forall i :: 0 <= i < |s| ==> s[i] < net.Size()
    requires forall i :: 0 <= i < |t| ==> t[i] < net.Size()
    ensures BufsOf(net, s + t) == BufsOf(net, s) + BufsOf(net, t)
  {
    if s == [] {
      assert s + t == t;
    } else {
      assert (s + t)[1..] == s[1..] + t;
      BufsOfAppend(net, s[1..], t);
    }
  }

  lemma BufsOfSnoc(net: Net, s: seq<nat>, i: nat)
    requires i < |s| && forall j :: 0 <= j < |s| ==> s[j] < net.Size()
    ensures BufsOf(net, s[..i + 1]) == if net.kind[s[i]] == Buf then BufsOf(net, s[..i]) + [s[i]]
      else BufsOf(net, s[..i])
  {
    assert s[..i + 1] == s[..i] + [s[i]];
    BufsOfAppend(net, s[..i], [s[i]]);
    assert [s[i]][1..] == [];
    assert BufsOf(net, [s[i]]) == if net.kind[s[i]] == Buf then [s[i]] else [];
  }

  /** One more input pin of the node whose buffers are entered at the head of the list. */
  lemma EnterStep(net: Net, s: seq<nat>, i: nat, rest: seq<nat>)
    requires i < |s| && forall j :: 0 <= j < |s| ==> s[j] < net.Size()
    ensures Reverse(BufsOf(net, s[..i + 1])) + rest ==
      if net.kind[s[i]] == Buf then [s[i]] + (Reverse(BufsOf(net, s[..i])) + rest)
        else Reverse(BufsOf(net, s[..i])) + rest
  {
    hide BufsOf, Reverse;
    BufsOfSnoc(net, s, i);
    ReverseSnoc(BufsOf(net, s[..i]), s[i]);
  }

  lemma {:induction false} BufsOfIgnoresLists(a: Net, b: Net, s: seq<nat>)
    requires a.kind == b.kind && forall j :: 0 <= j < |s| ==> s[j] < a.Size()
    ensures BufsOf(a, s) == BufsOf(b, s)
  {
    if s != [] {
      BufsOfIgnoresLists(a, b, s[1..]);
    }
  }

  lemma {:induction false} ReverseSnoc(s: seq<nat>, x: nat)
    ensures Reverse(s + [x]) == [x] + Reverse(s)
  {
    if s == [] {
      assert s + [x] == [x];
      assert [x][1..] == [];
    } else {
      assert (s + [x])[1..] == s[1..] + [x];
      ReverseSnoc(s[1..], x);
    }
  }
}
