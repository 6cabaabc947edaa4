/** pack_BLEs from end to end: the network passes, the packing loop, and what the result says. */
module PackBles {
  import opened Seqs
  import opened LogicNetwork
  import opened BufferEdits
  import opened NetworkPasses
  import opened LgkntwkEdits
  import opened BleState
  import opened BleInputs
  import opened BleLegal
  import opened CombCounts
  import opened PackRun
  import opened PackInvariant
  import opened PatternSpec
  import opened Packing
  import opened PatternPacking
  import opened Refusals
  import opened RoomyPacking
  import opened FreedNodes
  import opened HangingLatches
  import opened LatchCleanup
  import opened PortCleanup
  import opened DepthDfs
  import opened NetworkCheck

  // ----- what the passes hand to the packer

  ghost predicate Unmapped(net: Net) {
    forall n: nat :: n < |net.mapped| ==> !net.mapped[n]
  }

  lemma {:induction false} DropFromUnmapped(net: Net, kept: seq<nat>, todo: seq<nat>)
    requires Visiting(net, kept, todo)
    ensures DropFrom(net, kept, todo).mapped == net.mapped
    decreases |todo|
  {
    hide Distinct, KeepsMeaning, Agree, ArityOk;
    if todo != [] {
      VisitNext(net, kept, todo);
      if net.outs[todo[0]] == [] {
        DropFromUnmapped(DropLatch(net, todo[0]), kept, todo[1..]);
      } else {
        DropFromUnmapped(net, kept + [todo[0]], todo[1..]);
      }
    }
  }

  /** Putting a buffer before one latch leaves every gate with at most the latches it had. */
  lemma BufferAtKeeps(net: Netlist, strict: bool, blendNum: nat, latch: nat)
    requires net.IsLatch(latch)
    ensures OneLatch(net) ==> OneLatch(BufferAt(net, strict, blendNum, latch))
    ensures Unmapped(net) ==> Unmapped(BufferAt(net, strict, blendNum, latch))
  {
    hide NeedsBuf, SameMeaning, Agree, ListsOk, Acyclic, ArityOk, AddBuf, BufferLatch, OneLatch;
    if NeedsBuf(net, strict, blendNum, latch) {
      BufferLatchIs(net, latch);
      BufferLatchIsSound(net, latch);
      if OneLatch(net) {
        BufferKeepsOneLatch(net, BufferLatch(net, latch), latch);
      }
      LatchDriver(net, latch);
      BufferUnmapped(net, latch);
    }
  }

  lemma BufferUnmapped(net: Net, latch: nat)
    requires Shaped(net) && latch < net.Size() && |net.ins[latch]| > 0
    ensures AddBuf(net, latch, 0).mapped == net.mapped + [false]
  {
  }

  lemma BufferKeepsOneLatch(net: Net, r: Net, latch: nat)
    requires NetOk(net) && latch < net.Size() && net.kind[latch] == Latch && r == BufferLatch(net, latch)
    requires OneLatch(net) && Shaped(r)
    ensures OneLatch(r)
  {
    hide Agree, ArityOk;
    BufferLatchIs(net, latch);
    forall d: nat, i, j | d < r.Size() && r.kind[d] == Gate && 0 <= i < |r.outs[d]| && 0 <= j < |r.outs[d]| && i != j
      && r.IsLatch(r.outs[d][i])
      ensures !r.IsLatch(r.outs[d][j])
    {
      assert d < net.Size() && |r.outs[d]| == |net.outs[d]|;
    }
  }

  lemma {:induction false} BufferFirstKeeps(net: Netlist, strict: bool, blendNum: nat, k: nat)
    requires k <= |net.latches|
    ensures OneLatch(net) ==> OneLatch(BufferFirst(net, strict, blendNum, k))
    ensures Unmapped(net) ==> Unmapped(BufferFirst(net, strict, blendNum, k))
  {
    hide BufferAt, OneLatch, Unmapped, SameMeaning;
    if k > 0 {
      BufferFirstKeeps(net, strict, blendNum, k - 1);
      var p := BufferFirst(net, strict, blendNum, k - 1);
      LatchListed(p, k - 1);
      BufferAtKeeps(p, strict, blendNum, p.latches[k - 1]);
    }
  }

  /** Ready latches, at most one per gate, nothing mapped: what the packing invariant starts from. */
  lemma ReadyStarts(net: Netlist, sole: bool)
    requires LatchReady(net) && Unmapped(net) && (sole ==> OneLatch(net))
    ensures NetSide(net, sole)
  {
    hide Agree, ListsOk, Acyclic;
    if sole {
      forall d: nat, i, j | d < net.Size() && 0 <= i < |net.outs[d]| && 0 <= j < |net.outs[d]| && i != j
        && net.kind[d] == Gate
        && net.IsLatch(net.outs[d][i])
        ensures !net.IsLatch(net.outs[d][j]) && net.kind[net.outs[d][j]] != Buf
      {
      }
      assert Following(net);
    }
  }

  /** The network once buffers, idle input ports and hanging latches are gone: what is checked. */
  ghost function Cleaned(net: Netlist): (r: Netlist)
    ensures KeepsMeaning(net, r) && r.mapped == net.mapped
    ensures forall n: nat :: n < r.Size() ==> r.kind[n] != Buf
  {
    RemoveBufsIsSound(net);
    var a: Netlist := RemoveBufs(net);
    var b := WithoutIdlePis(a);
    DropHangingIsSound(b);
    StartVisit(b);
    DropFromUnmapped(b, [], b.latches);
    KeepsMeaningTrans(net, a, b);
    KeepsMeaningTrans(net, b, DropHanging(b));
    DropHanging(b)
  }

  ghost function WithoutIdlePis(net: Netlist): (r: Netlist)
    ensures KeepsMeaning(net, r) && r.mapped == net.mapped
    ensures forall n: nat :: n < net.Size() ==> r.kind[n] == net.kind[n] || r.kind[n] == Freed
  {
    FreePisIsSound(net);
    FreePorts(net, IdlePis(net))
  }

  /** The port lists still name the ports once the hanging latches are gone, and once buffers are in. */
  lemma PortsStay(a: Netlist, blendNum: nat, ports: seq<nat>, kind: Kind)
    requires kind == Pi || kind == Po
    requires forall n: nat :: n in ports <==> n < a.Size() && a.kind[n] == kind
    ensures var c := DropHanging(a);
      Prepared(c) && forall n: nat :: n in ports <==> n < c.Size() && c.kind[n] == kind
    ensures var d := AddBufLatches(a, false, blendNum);
      forall n: nat :: n in ports <==> n < d.Size() && d.kind[n] == kind
  {
    hide KeepsMeaning, DropHanging, BufferFirst, Frees, Dropped;
    DropHangingIsSound(a);
    DropHangingSize(a);
  }

  lemma PosStay(a: Netlist, pos: seq<nat>)
    requires forall n: nat :: n in pos <==> n < a.Size() && a.kind[n] == Po
    ensures forall n: nat :: n in pos <==> n < WithoutIdlePis(a).Size() && WithoutIdlePis(a).kind[n] == Po
  {
  }

  lemma RemoveBufsSize(net: Netlist)
    ensures RemoveBufs(net).Size() == net.Size()
  {
  }

  lemma DropHangingSize(a: Netlist)
    ensures DropHanging(a).Size() == a.Size() && forall n: nat :: n < a.Size() ==>
      DropHanging(a).kind[n] == a.kind[n] || DropHanging(a).kind[n] == Freed
  {
    hide DropHanging, Dropped;
    DropsExactly(a);
  }

  /** The network as the packing loop receives it. */
  ghost function Preprocessed(net: Netlist, blendNum: nat): Netlist {
    AddBufLatches(Cleaned(net), false, blendNum)
  }

  /** The passes turn any well-formed network, mapped nowhere, into one the packer can start from. */
  lemma PassesEstablishInvariant(net: Netlist, blendNum: nat, sole: bool)
    requires Unmapped(net) && (sole ==> OneLatch(Preprocessed(net, blendNum)))
    ensures var r := Preprocessed(net, blendNum);
      NetSide(r, sole) && Unmapped(r) && KeepsMeaning(net, r)
  {
    hide NetSide, LatchReady, OneLatch, Acyclic, ListsOk, SameMeaning, BufferFirst, RemoveBufs, DropHanging, NetOk,
      Cleaned;
    var c := Cleaned(net);
    var r := AddBufLatches(c, false, blendNum);
    AddBufLatchesIsSound(c, false, blendNum);
    BufferFirstKeeps(c, false, blendNum, |c.latches|);
    ReadyStarts(r, sole);
    KeepsMeaningTrans(net, c, r);
  }

  /** It is enough to look at the cleaned network. */
  lemma OneLatchEarly(net: Netlist, blendNum: nat)
    requires OneLatch(Cleaned(net))
    ensures OneLatch(Preprocessed(net, blendNum))
  {
    hide OneLatch, BufferFirst, Cleaned;
    BufferFirstKeeps(Cleaned(net), false, blendNum, |Cleaned(net).latches|);
  }

  // ----- what print_blif writes for a packed network

  /** The net at the used port that carries pin p of cell c, as print_blif decodes it. */
  function PinNet(net: Net, arch: Arch, s: Ble, c: nat, p: nat, j: nat): Option<nat>
    requires Fits(arch, s) && c < |arch.cells| && j <= |arch.cells[c]|
    decreases |arch.cells[c]| - j
  {
    if j == |arch.cells[c]| then None
    else if s.ports[c][j].used && s.ports[c][j].pin == p then PortNet(net, arch, s, c, j)
    else PinNet(net, arch, s, c, p, j + 1)
  }

  lemma {:induction false} PinNetIs(net: Net, arch: Arch, s: Ble, c: nat, p: nat, j: nat, k: nat)
    requires Fits(arch, s) && c < |arch.cells| && j <= k < |arch.cells[c]|
    requires s.ports[c][k].used && s.ports[c][k].pin == p
    requires forall i :: j <= i < k && s.ports[c][i].used ==> s.ports[c][i].pin != p
    ensures PinNet(net, arch, s, c, p, j) == PortNet(net, arch, s, c, k)
    decreases k - j
  {
    if j < k {
      PinNetIs(net, arch, s, c, p, j + 1, k);
    }
  }

  ghost predicate Prints(net: Net, arch: Arch, bles: seq<Ble>, n: nat, b: nat, c: nat)
    requires Shaped(net) && n < net.Size()
  {
    && b < |bles| && Fits(arch, bles[b]) && c < |arch.cells| && bles[b].cells[c].node == Some(n)
    && forall p: nat :: p < |net.ins[n]| ==> PinNet(net, arch, bles[b], c, p, 0) == Some(net.ins[n][p])
  }

  lemma LegalPrints(net: Net, arch: Arch, bles: seq<Ble>, n: nat, b: nat, c: nat)
    requires Shaped(net) && AllLegal(net, arch, bles) && b < |bles| && c < |bles[b].cells|
      && bles[b].cells[c].node == Some(n)
    ensures n < net.Size() && Prints(net, arch, bles, n, b, c)
  {
    hide Legal, PortNet;
    var s := bles[b];
    assert Legal(net, arch, s);
    LegalFits(net, arch, s);
    LegalPortsDecode(net, arch, s, c);
    forall p: nat | p < |net.ins[n]| ensures PinNet(net, arch, s, c, p, 0) == Some(net.ins[n][p]) {
      assert HasPort(s, c, p);
      var j: nat :| j < |s.ports[c]| && s.ports[c][j].used && s.ports[c][j].pin == p;
      forall i | 0 <= i < j && s.ports[c][i].used ensures s.ports[c][i].pin != p {
        assert 0 <= i < j < |arch.cells[c]|;
      }
      PinNetIs(net, arch, s, c, p, 0, j);
    }
  }

  lemma LegalFits(net: Net, arch: Arch, s: Ble)
    requires Shaped(net) && Legal(net, arch, s)
    ensures Fits(arch, s)
  {
    hide CellRouted, NetKept, InputsOk;
  }

  /** The printed netlist is the packed network: each gate has exactly one cell line in the whole
      file, and the nets print_blif writes at its pins are the gate's inputs, pin by pin. */
  lemma PrintedIsTheNetwork(net: Net, arch: Arch, bles: seq<Ble>, n: nat)
    requires Shaped(net) && PackedRight(net, arch, bles) && net.IsGate(n)
    ensures n < net.Size() && exists b: nat, c: nat :: Prints(net, arch, bles, n, b, c)
    ensures forall b: nat, c: nat, b': nat, c': nat ::
      Prints(net, arch, bles, n, b, c) && Prints(net, arch, bles, n, b', c') ==> b == b' && c == c'
  {
    hide Legal, OnOutput, PinNet, EverythingMapped;
    assert SitsAt(net, bles, n);
    LegalPrints(net, arch, bles, n, net.bleOf[n], net.cellOf[n]);
    forall b: nat, c: nat | Prints(net, arch, bles, n, b, c) ensures net.bleOf[n] == b && net.cellOf[n] == c {
      assert c < |bles[b].cells|;
    }
  }

  // ----- the whole run

  /** The cleaning passes of pack_BLEs, in their order. */
  method Clean(nw: Lgkntwk, pis0: seq<nat>, pos0: seq<nat>, newLen: nat, bufStat: nat)
      returns (swept: Sweep, pis: seq<nat>, pos: seq<nat>)
    requires Prepared(nw.State()) && Lists(nw.State(), pis0, Pi) && Lists(nw.State(), pos0, Po)
    modifies nw
    ensures swept == SweepOf(old(nw.State()), newLen, bufStat)
    ensures swept.Clean? ==>
      nw.State() == Cleaned(old(nw.State())) && Lists(nw.State(), pis, Pi) && Lists(nw.State(), pos, Po)
  {
    hide Prepared, RemoveBufs, DropHanging, Shaped, NetOk, FreePorts, Frees, Dropped, IdlePis, KeepsMeaning,
      WithoutBufs;
    pis, pos := [], [];
    ghost var net: Netlist := nw.State();
    RemoveBufsIsSound(net);
    RemoveBufsSize(net);
    PreparedNetOk(RemoveBufs(net));
    swept := nw.RemoveAllBufs(newLen, bufStat);
    if !swept.Clean? {
      return;
    }
    ghost var idle := WithoutIdlePis(RemoveBufs(net));
    pis := RemoveIsolatedPis(nw, pis0);
    PreparedNetOk(idle);
    PosStay(RemoveBufs(net), pos0);
    pos := RemoveIsolatedPos(nw, pos0);
    RemoveHangingLatches(nw);
    PortsStay(idle, 0, pis, Pi);
    PortsStay(idle, 0, pos, Po);
  }

  function SweepOf(net: Net, newLen: nat, bufStat: nat): Sweep {
    var left := |WithoutBufs(net, net.list)|;
    if newLen + bufStat != |net.gates| then StatsDiffer
    else if left > newLen then TooManyGates
    else if left < newLen then TailUnset
    else Sweep.Clean
  }

  datatype Start = Started(depth: seq<nat>) | Rejected | NoGateBefore

  /** The steps of pack_BLEs between cleaning and packing: the check, the buffers, the depths. */
  method Prepare(nw: Lgkntwk, pis: seq<nat>, pos: seq<nat>, constant: nat -> bool, blendNum: nat) returns (r: Start)
    requires Prepared(nw.State()) && Lists(nw.State(), pis, Pi) && Lists(nw.State(), pos, Po)
    requires forall n: nat :: n < |nw.kind| ==> nw.kind[n] != Buf
    modifies nw
    ensures Shaped(old(nw.State()))
    ensures r.Rejected? <==> !EverythingRead(old(nw.State())) || !ConstantsMay(old(nw.State()), constant)
    ensures r.NoGateBefore? <==> !r.Rejected? && old(nw.gates) == [] && old(nw.latches) != []
    ensures r.Started? ==>
      nw.State() == AddBufLatches(old(nw.State()), false, blendNum) && DepthsRight(nw.State(), r.depth)
  {
    hide Prepared, Shaped, NetOk, EverythingRead, ConstantsMay, PassesCheck, InRange, AddBufLatches, LongestFromSource,
      DeadEndReached, NoCycle;
    ghost var net: Netlist := nw.State();
    PreparedNetOk(net);
    CheckExactly(net, pis, pos, constant);
    var checked := CheckNetwork(nw, pis, pos, constant);
    if !checked {
      return Rejected;
    }
    var buffered, bufNum := nw.AddBufsBeforeLatches(false, blendNum);
    if !buffered {
      return NoGateBefore;
    }
    ghost var ready: Netlist := AddBufLatches(net, false, blendNum);
    PreparedNetOk(ready);
    ReadyIsRead(net, blendNum);
    PortsStay(net, blendNum, pis, Pi);
    var marked, depths := MarkDepths(nw.State(), pis, SomeRanks(ready));
    assert marked;
    r := Started(depths[..]);
  }

  /** The error exit of the depth search is out of reach once the check has passed. */
  lemma ReadyIsRead(net: Netlist, blendNum: nat)
    requires EverythingRead(net)
    ensures !DeadEndReached(AddBufLatches(net, false, blendNum))
  {
    hide EverythingRead, DeadEndReached, BufferFirst;
    BuffersKeepRead(net, false, blendNum, |net.latches|);
    NoDeadEnd(AddBufLatches(net, false, blendNum));
  }

  /** How pack_BLEs ends: packed, with one of its error exits, or where the source reads an array
      outside of what was written. The error exit of the depth search is not among them. */
  datatype PackResult = PackedBles(bles: seq<Ble>) | StatsMismatch | UnsetTail | CheckFailed | NoGate | NothingFits

  /** pack_BLEs with the pattern packer. newLen and bufStat are the node statistics, pis and pos the
      port lists, constant tells which gates may do without inputs. In normal mode no gate may be left
      with two latches before packing (OneLatch); in combinational mode nothing is asked, and packing
      succeeds only then. Every other end but the last is characterised by the network at the start; at
      the last, not even a blank BLE takes any pattern of any gate that is left. On an architecture with a
      roomy cell that end is out of reach, so there OneLatch is also enough for success. */
  method Pack(nw: Lgkntwk, arch: Arch, pis: seq<nat>, pos: seq<nat>, newLen: nat, bufStat: nat, constant: nat -> bool,
              advice: Advice, opts: Options) returns (r: PackResult, depth: seq<nat>)
    requires Prepared(nw.State()) && Unmapped(nw.State()) && Lists(nw.State(), pis, Pi) && Lists(nw.State(), pos, Po)
    requires Allots(advice.find) && |advice.priority| == |arch.cells|
    requires opts.mode == Normal ==> OneLatch(Preprocessed(nw.State(), |arch.cells|))
    modifies nw
    ensures r.PackedBles? ==>
      Shaped(nw.State()) && KeepsMeaning(old(nw.State()), nw.State()) && PackedRight(nw.State(), arch, r.bles)
      && OneLatch(Preprocessed(old(nw.State()), |arch.cells|))
    ensures var swept := SweepOf(old(nw.State()), newLen, bufStat);
      var c := Cleaned(old(nw.State()));
      && (r.StatsMismatch? <==> swept.StatsDiffer? || swept.TooManyGates?)
      && (r.UnsetTail? <==> swept.TailUnset?)
      && (r.CheckFailed? <==> swept.Clean? && (!EverythingRead(c) || !ConstantsMay(c, constant)))
      && (r.NoGate? <==> swept.Clean? && !r.CheckFailed? && c.gates == [] && c.latches != [])
    ensures r.NothingFits? ==>
      Shaped(nw.State()) && !EverythingMapped(nw.State()) && RefusesAll(nw.State(), arch, advice, opts)
    ensures r.NothingFits? && OneLatch(Preprocessed(old(nw.State()), |arch.cells|)) ==>
      forall c: nat :: !Generous(Preprocessed(old(nw.State()), |arch.cells|), arch, advice, c)
    ensures r.PackedBles? || r.NothingFits? ==> DepthsRight(Preprocessed(old(nw.State()), |arch.cells|), depth)
  {
    hide Prepared, NetSide, KeepsMeaning, PackedRight, OneLatch, AddBufLatches, Shaped, NetOk, EverythingRead,
      ConstantsMay,
      DepthsRight, Lists, SweepOf, Cleaned, Allots, Generous, RefusesAll, EverythingMapped, KeepsTrack;
    depth := [];
    ghost var net: Netlist := nw.State();
    var swept, pis', pos' := Clean(nw, pis, pos, newLen, bufStat);
    if !swept.Clean? {
      r := if swept.TailUnset? then UnsetTail else StatsMismatch;
      return;
    }
    var start := Prepare(nw, pis', pos', constant, |arch.cells|);
    match start {
      case Rejected => r := CheckFailed;
      case NoGateBefore => r := NoGate;
      case Started(marked) =>
        depth := marked;
        ghost var ready := nw.State();
        PreparedNetOk(Preprocessed(net, |arch.cells|));
        ghost var sole := OneLatch(Preprocessed(net, |arch.cells|));
        PassesEstablishInvariant(net, |arch.cells|, sole);
        var packed := PatternPack(nw, arch, advice, opts, sole);
        KeepsMeaningTrans(net, ready, nw.State());
        if packed.NoSuitable? && sole {
          NeverGenerous(ready, nw.State(), arch, advice, opts);
        }
        r := match packed case Packed(bles) => PackedBles(bles) case NoSuitable => NothingFits;
    }
  }

  /** Where the packer has given up, no cell is roomy. */
  lemma NeverGenerous(start: Net, end: Net, arch: Arch, advice: Advice, opts: Options)
    requires Shaped(start) && KeepsTrack(start, end) && NetSide(end, true) && RefusesAll(end, arch, advice, opts)
    requires !EverythingMapped(end)
    ensures forall c: nat :: !Generous(start, arch, advice, c)
  {
    hide Generous, KeepsDoomed, KeepsPins, NetSide, RefusesAll, EverythingMapped;
    forall c: nat ensures !Generous(start, arch, advice, c) {
      if Generous(start, arch, advice, c) {
        NothingLeft(start, end, arch, advice, opts, c);
      }
    }
  }

  /** The list names exactly the nodes of the kind. */
  ghost predicate Lists(net: Net, s: seq<nat>, kind: Kind) {
    forall n: nat :: n in s <==> n < net.Size() && net.kind[n] == kind
  }

  /** On a network without cycles, latches included, the marked depths are the longest walks. */
  ghost predicate DepthsRight(net: Netlist, depth: seq<nat>) {
    |depth| == net.Size()
    && ((exists rk :: NoCycle(net, rk)) ==> forall n: nat :: n < net.Size() ==> LongestFromSource(net, n, depth[n]))
  }

  ghost function SomeRanks(net: Netlist): (rk: seq<nat>)
    ensures (exists r :: NoCycle(net, r)) ==> NoCycle(net, rk)
  {
    if r :| NoCycle(net, r) then r else []
  }

  lemma PreparedNetOk(net: Netlist)
    ensures NetOk(net) && Shaped(net)
  {
  }
}
