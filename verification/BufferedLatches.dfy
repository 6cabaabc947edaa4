/** Which latches get a buffer (add_buf_latches), told from the network before the pass. */
module BufferedLatches {
  import opened Seqs
  import opened LogicNetwork
  import opened BufferEdits
  import opened NetworkPasses

  /** The fan-out entries of d that are no latch. */
  function Outside(net: Net, d: nat): set<nat>
    requires d < |net.outs|
  {
    set i: nat | i < |net.outs[d]| && !net.IsLatch(net.outs[d][i])
  }

  /** A latch driven by d gets a buffer: d is an input or a latch, or its fan-out is too wide. */
  predicate TooWide(net: Net, strict: bool, blendNum: nat, d: nat)
    requires d < net.Size() && d < |net.outs|
  {
    || net.kind[d] == Pi || net.kind[d] == Latch
    || (strict && |net.outs[d]| > 1)
    || (!strict && blendNum < |Outside(net, d)|)
  }

  lemma {:induction false} OutsideCounts(net: Net, d: nat, k: nat)
    requires d < |net.outs| && k <= |net.outs[d]|
    ensures NonLatches(net, net.outs[d][..k]) == |set i: nat | i < k && !net.IsLatch(net.outs[d][i])|
  {
    var now := set i: nat | i < k && !net.IsLatch(net.outs[d][i]);
    if k == 0 {
      assert now == {};
    } else {
      var before := set i: nat | i < k - 1 && !net.IsLatch(net.outs[d][i]);
      OutsideCounts(net, d, k - 1);
      assert net.outs[d][..k] == net.outs[d][..k - 1] + [net.outs[d][k - 1]];
      NonLatchesAppend(net, net.outs[d][..k - 1], [net.outs[d][k - 1]]);
      assert [net.outs[d][k - 1]][1..] == [];
      assert now == if net.IsLatch(net.outs[d][k - 1]) then before else before + {k - 1};
    }
  }

  lemma WideIsCrowded(net: Net, strict: bool, blendNum: nat, d: nat)
    requires Shaped(net) && d < net.Size()
    ensures TooWide(net, strict, blendNum, d) <==>
      net.kind[d] == Pi || net.kind[d] == Latch || Crowded(net, strict, blendNum, d)
  {
    OutsideCounts(net, d, |net.outs[d]|);
    assert net.outs[d][..|net.outs[d]|] == net.outs[d];
    assert Outside(net, d) == set i: nat | i < |net.outs[d]| && !net.IsLatch(net.outs[d][i]);
  }

  lemma NeedsBufExactly(net: Net, strict: bool, blendNum: nat, latch: nat)
    requires NetOk(net) && net.IsLatch(latch)
    ensures NeedsBuf(net, strict, blendNum, latch) <==> TooWide(net, strict, blendNum, net.ins[latch][0])
  {
    hide TooWide, Crowded, Agree;
    WideIsCrowded(net, strict, blendNum, net.ins[latch][0]);
  }

  /** The latches among the first k whose driver is too wide. */
  ghost function WideFirst(net: Net, strict: bool, blendNum: nat, k: nat): set<nat>
    requires NetOk(net) && k <= |net.latches|
  {
    set i: nat | i < k && WideAt(net, strict, blendNum, net.latches[i]) :: net.latches[i]
  }

  ghost predicate WideAt(net: Net, strict: bool, blendNum: nat, l: nat)
    requires NetOk(net)
  {
    net.IsLatch(l) && TooWide(net, strict, blendNum, net.ins[l][0])
  }

  /** Latch l of r: behind a new buffer when it was to get one, else where it was. */
  ghost predicate DrivenBy(net: Net, r: Net, l: nat, buffered: bool)
    requires NetOk(net) && net.IsLatch(l)
  {
    && l < |r.ins|
    && if buffered then
         |r.ins[l]| == 1 && net.Size() <= r.ins[l][0] < r.Size() && r.ins[l][0] < |r.ins| && r.kind[r.ins[l][0]] == Buf
         && r.ins[r.ins[l][0]] == net.ins[l]
       else r.ins[l] == net.ins[l]
  }

  /** The state after k latches. */
  ghost predicate Buffered(net: Netlist, r: Net, strict: bool, blendNum: nat, k: nat)
    requires k <= |net.latches|
  {
    && NetOk(r) && r.latches == net.latches && net.kind <= r.kind
    && (forall d: nat :: d < net.Size() ==> TooWide(r, strict, blendNum, d) == TooWide(net, strict, blendNum, d))
    && (forall i: nat {:trigger net.latches[i]} :: i < |net.latches| ==>
          net.IsLatch(net.latches[i])
          && DrivenBy(net, r, net.latches[i], i < k && WideAt(net, strict, blendNum, net.latches[i])))
    && r.Size() == net.Size() + |WideFirst(net, strict, blendNum, k)|
  }

  lemma LatchesListed(net: Netlist)
    ensures forall i: nat {:trigger net.latches[i]} :: i < |net.latches| ==> net.IsLatch(net.latches[i])
    ensures Distinct(net.latches) && NetOk(net)
  {
    hide Agree, ArityOk, Acyclic;
    assert forall i :: 0 <= i < |net.latches| ==> net.latches[i] in net.latches;
  }

  lemma NothingBuffered(net: Netlist, strict: bool, blendNum: nat)
    ensures Buffered(net, net, strict, blendNum, 0)
  {
    hide Agree, ArityOk, Acyclic, TooWide;
    LatchesListed(net);
    assert WideFirst(net, strict, blendNum, 0) == {};
  }

  lemma WideFirstNext(net: Netlist, strict: bool, blendNum: nat, k: nat)
    requires k < |net.latches|
    ensures |WideFirst(net, strict, blendNum, k + 1)|
         == |WideFirst(net, strict, blendNum, k)| + if WideAt(net, strict, blendNum, net.latches[k]) then 1 else 0
  {
    hide Agree, ArityOk, Acyclic, TooWide;
    LatchesListed(net);
    var a, b := WideFirst(net, strict, blendNum, k), WideFirst(net, strict, blendNum, k + 1);
    assert net.latches[k] !in a;
    assert b == if WideAt(net, strict, blendNum, net.latches[k]) then a + {net.latches[k]} else a;
  }

  /** Widths are as before once a latch with a wide driver has got its buffer. */
  lemma WidthsStay(p: Netlist, strict: bool, blendNum: nat, latch: nat, d: nat)
    requires p.IsLatch(latch) && NeedsBuf(p, strict, blendNum, latch) && d < p.Size()
    ensures var r := BufferLatch(p, latch);
      NetOk(r) && d < r.Size() && TooWide(r, strict, blendNum, d) == TooWide(p, strict, blendNum, d)
  {
    hide Agree, ArityOk, Acyclic, Crowded, TooWide, BufferLatch;
    BufferLatchEdges(p, latch);
    var r := BufferLatch(p, latch);
    WideIsCrowded(p, strict, blendNum, d);
    WideIsCrowded(r, strict, blendNum, d);
    CrowdedAfter(p, strict, blendNum, latch, d);
  }

  lemma BufferedNext(net: Netlist, p: Netlist, strict: bool, blendNum: nat, k: nat)
    requires k < |net.latches| && Buffered(net, p, strict, blendNum, k) && p.IsLatch(net.latches[k])
    ensures Buffered(net, BufferAt(p, strict, blendNum, net.latches[k]), strict, blendNum, k + 1)
  {
    hide Agree, ArityOk, Acyclic, ListsOk, Crowded, TooWide, BufferLatch, WideFirst, SameMeaning;
    LatchesListed(net);
    var latch := net.latches[k];
    WideFirstNext(net, strict, blendNum, k);
    LatchDriver(p, latch);
    LatchDriver(net, latch);
    WideIsCrowded(p, strict, blendNum, p.ins[latch][0]);
    if NeedsBuf(p, strict, blendNum, latch) {
      BufferLatchEdges(p, latch);
      var r := BufferLatch(p, latch);
      forall d: nat | d < net.Size() ensures TooWide(r, strict, blendNum, d) == TooWide(net, strict, blendNum, d) {
        WidthsStay(p, strict, blendNum, latch, d);
      }
      forall i: nat | i < |net.latches|
        ensures DrivenBy(net, r, net.latches[i], i < k + 1 && WideAt(net, strict, blendNum, net.latches[i]))
      {
        assert DrivenBy(net, p, net.latches[i], i < k && WideAt(net, strict, blendNum, net.latches[i]));
        assert i != k ==> net.latches[i] != latch;
      }
    }
  }

  lemma {:induction false} BufferFirstBuffered(net: Netlist, strict: bool, blendNum: nat, k: nat)
    requires k <= |net.latches|
    ensures Buffered(net, BufferFirst(net, strict, blendNum, k), strict, blendNum, k)
  {
    hide BufferAt, Buffered, SameMeaning, Prepared;
    if k == 0 {
      NothingBuffered(net, strict, blendNum);
    } else {
      BufferFirstBuffered(net, strict, blendNum, k - 1);
      var p := BufferFirst(net, strict, blendNum, k - 1);
      LatchListed(p, k - 1);
      BufferedNext(net, p, strict, blendNum, k - 1);
    }
  }

  /** MAIN RESULT: a latch gets a buffer exactly if, in the network before the pass, its driver is an
      input, a latch, or too wide; any other latch keeps its driver; and the network grows by just as many
      nodes as there are such latches. */
  lemma BufferedExactly(net: Netlist, strict: bool, blendNum: nat)
    ensures NetOk(net)
    ensures var r := AddBufLatches(net, strict, blendNum);
      && (forall l: nat :: net.IsLatch(l) ==>
            |net.ins[l]| == 1 && DrivenBy(net, r, l, TooWide(net, strict, blendNum, net.ins[l][0])))
      && r.Size() == net.Size() + |set l: nat | l < net.Size() && WideAt(net, strict, blendNum, l)|
  {
    hide Agree, Acyclic, TooWide, BufferFirst, DrivenBy, SameMeaning;
    var r := AddBufLatches(net, strict, blendNum);
    var k := |net.latches|;
    BufferFirstBuffered(net, strict, blendNum, k);
    forall l: nat | net.IsLatch(l)
      ensures |net.ins[l]| == 1 && DrivenBy(net, r, l, TooWide(net, strict, blendNum, net.ins[l][0]))
    {
      LatchDriver(net, l);
      assert l in net.latches;
      var i: nat :| i < k && net.latches[i] == l;
    }
    assert WideFirst(net, strict, blendNum, k) == set l: nat | l < net.Size() && WideAt(net, strict, blendNum, l) by {
      assert forall l: nat :: net.IsLatch(l) <==> l in net.latches;
    }
  }

  /** Without buffers before, a latch has a buffer afterwards exactly if it got one. */
  lemma HasBufferExactly(net: Netlist, strict: bool, blendNum: nat, l: nat)
    requires net.IsLatch(l) && forall n: nat :: n < net.Size() ==> net.kind[n] != Buf
    ensures NetOk(net) && |net.ins[l]| == 1
    ensures var r := AddBufLatches(net, strict, blendNum);
      && l < r.Size() && r.IsLatch(l) && |r.ins[l]| == 1
      && (r.kind[r.ins[l][0]] == Buf <==> TooWide(net, strict, blendNum, net.ins[l][0]))
  {
    hide Agree, Acyclic, TooWide, BufferFirst, SameMeaning;
    BufferedExactly(net, strict, blendNum);
    assert DrivenBy(net, AddBufLatches(net, strict, blendNum), l, TooWide(net, strict, blendNum, net.ins[l][0]));
  }
}
