/** What mark_lgknd_outputs_mapped does to the network, told from the fan-out and the BLE's outputs. */
module OutputMarks {
  import opened Seqs
  import opened LogicNetwork
  import opened BufferEdits
  import opened NetworkPasses
  import opened BleState
  import opened SatSpec
  import opened BleLegality
  import opened PackRun

  /** Entry i of the fan-out is an unmapped latch. */
  ghost predicate OpenAt(net: Net, cur: nat, i: nat)
    requires Shaped(net) && cur < net.Size()
  {
    i < |net.outs[cur]| && net.IsLatch(net.outs[cur][i]) && !net.mapped[net.outs[cur][i]]
  }

  /** And some output carries it. */
  ghost predicate ServedAt(net: Net, s: Ble, cur: nat, i: nat)
    requires Shaped(net) && cur < net.Size()
  {
    OpenAt(net, cur, i) && exists o :: 0 <= o < |s.outs| && s.outs[o].node == Some(net.outs[cur][i])
  }

  lemma {:induction false} ServedIsFirst(net: Net, s: Ble, fan: seq<nat>) returns (i: nat)
    ensures FirstServedLatch(net, s, fan).None? ==>
      forall j: nat :: OpenLatchAt(net, fan, j) ==> !OnOutput(s, fan[j])
    ensures FirstServedLatch(net, s, fan).Some? && FirstServedLatch(net, s, fan).value < |net.mapped| ==>
      OpenLatchAt(net, fan, i) && fan[i] == FirstServedLatch(net, s, fan).value && OnOutput(s, fan[i])
      && forall j: nat :: j < i && OpenLatchAt(net, fan, j) ==> !OnOutput(s, fan[j])
  {
    hide OnOutput;
    i := 0;
    if fan != [] && !(OpenLatchAt(net, fan, 0) && OnOutput(s, fan[0])) {
      var k := ServedIsFirst(net, s, fan[1..]);
      i := k + 1;
      forall j: nat ensures OpenLatchAt(net, fan, j) && j > 0 <==> j > 0 && OpenLatchAt(net, fan[1..], j - 1) {
      }
    }
  }

  lemma {:induction false} LastIsLast(net: Net, fan: seq<nat>) returns (i: nat)
    ensures LastLatch(net, fan).None? ==> forall j: nat :: !OpenLatchAt(net, fan, j)
    ensures LastLatch(net, fan).Some? && LastLatch(net, fan).value < |net.mapped| ==>
      OpenLatchAt(net, fan, i) && fan[i] == LastLatch(net, fan).value && forall j: nat :: j > i ==>
        !OpenLatchAt(net, fan, j)
  {
    i := 0;
    if fan != [] {
      var n := |fan| - 1;
      if OpenLatchAt(net, fan, n) {
        i := n;
      } else {
        i := LastIsLast(net, fan[..n]);
        forall j: nat ensures OpenLatchAt(net, fan, j) <==> OpenLatchAt(net, fan[..n], j) {
        }
      }
    }
  }

  /** The latch has moved behind a new, unmapped buffer; nothing else has changed. */
  ghost predicate MovedBehindBuf(net: Net, r: Net, cur: nat, latch: nat)
    requires Shaped(net) && cur < net.Size()
  {
    var b := net.Size();
    && Shaped(r) && r.kind == net.kind + [Buf] && latch < b
    && r.ins[latch] == [b] && r.ins[b] == [cur] && r.outs[b] == [latch]
    && (forall n: nat :: n < b && n != latch ==> r.ins[n] == net.ins[n])
    && (forall n: nat :: n < b && n != cur ==> r.outs[n] == net.outs[n])
    && r.mapped == net.mapped + [false] && r.bleOf == net.bleOf + [-1] && r.cellOf == net.cellOf + [-1]
    && r.latches == net.latches && r.gates == net.gates + [b] && r.list == [b] + net.list
  }

  lemma FlaggedMoves(net: Net, cur: nat, latch: nat)
    requires NetOk(net) && cur < net.Size() && net.IsLatch(latch) && latch in net.outs[cur]
    ensures MovedBehindBuf(net, BufferFlagged(net, latch), cur, latch)
  {
    hide Agree;
    BufferLatchIs(net, latch);
    AddBufKeepsAgreement(net, latch, 0);
    OnlyDriver(net, cur, latch);
  }

  /** The first unmapped latch of the fan-out that some output carries gets its flags; if there is none, the
      last unmapped latch moves behind a new buffer, unless the node is a buffer or drives one already; else
      nothing happens. */
  lemma MarkOutputsExactly(net: Net, s: Ble, ble: nat, cur: nat)
    requires NetOk(net) && cur < net.Size()
    ensures var r := MarkOutputs(net, s, ble, cur);
      var fan := net.outs[cur];
      var spared := net.kind[cur] == Buf || exists i :: 0 <= i < |fan| && net.kind[fan[i]] == Buf;
      if exists i: nat :: ServedAt(net, s, cur, i) then
        exists i: nat :: ServedAt(net, s, cur, i) && (forall j: nat :: j < i ==> !ServedAt(net, s, cur, j))
          && r == net.(mapped := net.mapped[fan[i] := true], bleOf := net.bleOf[fan[i] := ble])
      else if (exists i: nat :: OpenAt(net, cur, i)) && !spared then
        exists i: nat :: OpenAt(net, cur, i) && (forall j: nat :: j > i ==> !OpenAt(net, cur, j))
          && MovedBehindBuf(net, r, cur, fan[i])
      else r == net
  {
    hide Agree, ArityOk, OnOutput, FirstServedLatch, LastLatch, BufferFlagged, MovedBehindBuf;
    var fan := net.outs[cur];
    forall i: nat | i < |fan| ensures ServedAt(net, s, cur, i) <==> OpenAt(net, cur, i) && OnOutput(s, fan[i]) {
      OnOutputIs(s, fan[i]);
    }
    assert forall i: nat :: OpenLatchAt(net, fan, i) <==> OpenAt(net, cur, i);
    var i := ServedIsFirst(net, s, fan);
    var k := LastIsLast(net, fan);
    var served, last := FirstServedLatch(net, s, fan), LastLatch(net, fan);
    if served.Some? {
      FanoutInRange(net, cur, served.value);
      assert ServedAt(net, s, cur, i);
    } else if last.Some? {
      FanoutInRange(net, cur, last.value);
      assert OpenAt(net, cur, k);
      FlaggedMoves(net, cur, last.value);
    }
  }
}
