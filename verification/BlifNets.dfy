/** Construction of the nets of a BLIF netlist in two scans (build_nets): the first counts, the second
    fills the fan-out arrays. */
module BlifNets {
  import opened Seqs

  datatype CellType = Libgate | Gate | Latch

  datatype Ref = Ref(typ: CellType, idx: nat)

  /** A gate or latch: the nets at its inputs and the net it drives. */
  datatype Cell = Cell(inputs: seq<string>, output: string)

  /** A pin: the net it names and the cell it belongs to. */
  datatype Pin = Pin(name: string, ref: Ref)

  /** s_conkt. outputs is empty until it is allocated; iout is the cursor that fills it. */
  datatype Conkt = Conkt(idx: nat, name: string, inputNum: nat, driver: Option<Ref>, outputNum: nat,
                         outputs: seq<Option<Ref>>, iout: nat, piIdx: Option<nat>, poIdx: Option<nat>)

  function Fresh(idx: nat, name: string): Conkt { Conkt(idx, name, 0, None, 0, [], 0, None, None) }

  // ----- what the nets should say

  /** The cells whose pins name the net, in order. */
  function Uses(pins: seq<Pin>, name: string): seq<Ref> {
    if pins == [] then []
    else
      var n := |pins| - 1;
      Uses(pins[..n], name) + (if pins[n].name == name then [pins[n].ref] else [])
  }

  lemma UsesSnoc(pins: seq<Pin>, p: Pin, name: string)
    ensures Uses(pins + [p], name) == Uses(pins, name) + (if p.name == name then [p.ref] else [])
  {
    assert (pins + [p])[..|pins|] == pins;
  }

  lemma {:induction false} UsesAppend(a: seq<Pin>, b: seq<Pin>, name: string)
    ensures Uses(a + b, name) == Uses(a, name) + Uses(b, name)
  {
    if b == [] {
      assert a + b == a;
    } else {
      var n := |b| - 1;
      assert a + b == (a + b[..n]) + [b[n]];
      UsesSnoc(a + b[..n], b[n], name);
      UsesAppend(a, b[..n], name);
    }
  }

  /** The input pins of the first k cells of a list, and of the first j inputs of the next. */
  function InPins(typ: CellType, cells: seq<Cell>, k: nat): seq<Pin>
    requires k <= |cells|
  {
    if k == 0 then [] else InPins(typ, cells, k - 1) + CellPins(cells[k - 1].inputs, Ref(typ, k - 1))
  }

  function CellPins(names: seq<string>, ref: Ref): seq<Pin> {
    seq(|names|, i requires 0 <= i < |names| => Pin(names[i], ref))
  }

  function OutPins(typ: CellType, cells: seq<Cell>, k: nat): seq<Pin>
    requires k <= |cells|
  {
    if k == 0 then [] else OutPins(typ, cells, k - 1) + [Pin(cells[k - 1].output, Ref(typ, k - 1))]
  }

  function Named(nets: seq<Conkt>, name: string): bool {
    exists i :: 0 <= i < |nets| && nets[i].name == name
  }

  /** After the first scan has seen these input and output pins. */
  ghost predicate Counted(nets: seq<Conkt>, ins: seq<Pin>, outs: seq<Pin>) {
    && (forall i, j :: 0 <= i < j < |nets| ==> nets[i].name != nets[j].name)
    && (forall i {:trigger nets[i]} :: 0 <= i < |nets| ==> CountedAt(nets[i], ins, outs) && nets[i].idx == |nets| - i)
    && (forall name :: Uses(ins, name) != [] || Uses(outs, name) != [] ==> Named(nets, name))
  }

  ghost predicate CountedAt(n: Conkt, ins: seq<Pin>, outs: seq<Pin>) {
    var drivers := Uses(outs, n.name);
    && n.outputNum == |Uses(ins, n.name)| && n.inputNum == |drivers| <= 1
    && n.driver == (if drivers == [] then None else Some(drivers[0]))
    && n.outputNum + n.inputNum > 0 && n.iout == 0 && n.outputs == [] && n.piIdx.None? && n.poIdx.None?
  }

  /** The second scan has filled in the pins of done; all are those counted by the first. */
  ghost predicate Filled(nets: seq<Conkt>, counted: seq<Conkt>, done: seq<Pin>) {
    && |nets| == |counted|
    && forall i {:trigger nets[i]} :: 0 <= i < |nets| ==> FilledAt(nets[i], counted[i], done)
  }

  ghost predicate FilledAt(n: Conkt, c: Conkt, done: seq<Pin>) {
    var uses := Uses(done, c.name);
    && n == c.(outputs := n.outputs, iout := n.iout)
    && |n.outputs| == c.outputNum && n.iout == |uses| <= c.outputNum
    && forall k :: 0 <= k < |uses| ==> n.outputs[k] == Some(uses[k])
  }

  // ----- one pin

  /** spot_conkt_name: the first net of that name, or -1. */
  function Spot(nets: seq<Conkt>, name: string): (r: int)
    ensures -1 <= r < |nets| && (r >= 0 ==> nets[r].name == name)
    ensures r == -1 <==> !Named(nets, name)
  {
    if nets == [] then -1
    else if nets[0].name == name then 0
    else
      var r := Spot(nets[1..], name);
      NamedTail(nets, name);
      if r == -1 then -1 else r + 1
  }

  lemma NamedTail(nets: seq<Conkt>, name: string)
    requires nets != [] && nets[0].name != name
    ensures Named(nets, name) <==> Named(nets[1..], name)
  {
    if i :| 0 <= i < |nets| && nets[i].name == name {
      assert nets[1..][i - 1].name == name;
    }
    if i :| 0 <= i < |nets[1..]| && nets[1..][i].name == name {
      assert nets[i + 1].name == name;
    }
  }

  /** The list with the net in it: as it was, or with a new net at its front. */
  function WithNet(nets: seq<Conkt>, name: string): (r: seq<Conkt>)
    ensures Named(r, name) && Spot(r, name) >= 0
  {
    if Named(nets, name) then nets
    else
      var r := [Fresh(|nets| + 1, name)] + nets;
      assert r[0].name == name;
      r
  }

  function CountUse(nets: seq<Conkt>, name: string): seq<Conkt> {
    var r := WithNet(nets, name);
    var i := Spot(r, name);
    r[i := r[i].(outputNum := r[i].outputNum + 1)]
  }

  function CountDrive(nets: seq<Conkt>, name: string, ref: Ref): seq<Conkt> {
    var r := WithNet(nets, name);
    var i := Spot(r, name);
    r[i := r[i].(inputNum := r[i].inputNum + 1, driver := Some(ref))]
  }

  /** A list that is right but for a net that nothing names yet. */
  ghost predicate Nearly(nets: seq<Conkt>, ins: seq<Pin>, outs: seq<Pin>, name: string) {
    && (forall i, j :: 0 <= i < j < |nets| ==> nets[i].name != nets[j].name)
    && (forall i {:trigger nets[i]} :: 0 <= i < |nets| ==> nets[i].idx == |nets| - i)
    && (forall i {:trigger nets[i]} :: 0 <= i < |nets| ==>
      CountedAt(nets[i], ins, outs) || nets[i] == Fresh(nets[i].idx, name))
    && (forall x :: Uses(ins, x) != [] || Uses(outs, x) != [] || x == name ==> Named(nets, x))
    && (forall i {:trigger nets[i]} :: 0 <= i < |nets| && nets[i] == Fresh(nets[i].idx, name) ==>
      Uses(ins, name) == [] && Uses(outs, name) == [])
  }

  lemma WithNetNearly(nets: seq<Conkt>, ins: seq<Pin>, outs: seq<Pin>, name: string)
    requires Counted(nets, ins, outs)
    ensures Nearly(WithNet(nets, name), ins, outs, name)
  {
    hide Uses, Spot, Named, CountedAt;
    if Named(nets, name) {
      CountedIsNearly(nets, ins, outs, name);
    } else {
      NewNetNearly(nets, ins, outs, name);
    }
  }

  lemma CountedIsNearly(nets: seq<Conkt>, ins: seq<Pin>, outs: seq<Pin>, name: string)
    requires Counted(nets, ins, outs) && Named(nets, name)
    ensures Nearly(nets, ins, outs, name)
  {
    hide Uses, Named;
  }

  lemma NewNetNearly(nets: seq<Conkt>, ins: seq<Pin>, outs: seq<Pin>, name: string)
    requires Counted(nets, ins, outs) && !Named(nets, name)
    ensures Nearly([Fresh(|nets| + 1, name)] + nets, ins, outs, name)
  {
    hide Uses, CountedAt, Named;
    NoUsesUnnamed(nets, ins, outs, name);
    var r := [Fresh(|nets| + 1, name)] + nets;
    assert forall i :: 0 <= i < |nets| ==> r[i + 1] == nets[i];
    forall i, j | 0 <= i < j < |r| ensures r[i].name != r[j].name {
      assert r[j] == nets[j - 1];
      if i > 0 { assert r[i] == nets[i - 1]; } else { UnnamedAt(nets, name, j - 1); }
    }
    forall i | 0 <= i < |r| ensures r[i].idx == |r| - i && (CountedAt(r[i], ins, outs) || r[i] == Fresh(r[i].idx, name))
    {
      if i > 0 { assert r[i] == nets[i - 1]; }
    }
    forall x | Uses(ins, x) != [] || Uses(outs, x) != [] || x == name ensures Named(r, x) {
      if x != name {
        NamedAfter(nets, Fresh(|nets| + 1, name), x);
      } else {
        NamedHead(nets, Fresh(|nets| + 1, name));
      }
    }
  }

  lemma NoUsesUnnamed(nets: seq<Conkt>, ins: seq<Pin>, outs: seq<Pin>, name: string)
    requires Counted(nets, ins, outs) && !Named(nets, name)
    ensures Uses(ins, name) == [] && Uses(outs, name) == []
  {
    hide Uses, CountedAt, Named;
  }

  lemma UnnamedAt(nets: seq<Conkt>, name: string, j: nat)
    requires !Named(nets, name) && j < |nets|
    ensures nets[j].name != name
  {
  }

  lemma NamedHead(nets: seq<Conkt>, n: Conkt)
    ensures Named([n] + nets, n.name)
  {
    assert ([n] + nets)[0].name == n.name;
  }

  lemma NamedAfter(nets: seq<Conkt>, n: Conkt, x: string)
    requires Named(nets, x)
    ensures Named([n] + nets, x)
  {
    var i :| 0 <= i < |nets| && nets[i].name == x;
    assert ([n] + nets)[i + 1].name == x;
  }

  lemma NamedUpdate(r: seq<Conkt>, i: nat, n: Conkt, x: string)
    requires i < |r| && n.name == r[i].name && Named(r, x)
    ensures Named(r[i := n], x)
  {
    var k :| 0 <= k < |r| && r[k].name == x;
    assert r[i := n][k].name == x;
  }

  lemma CountUseKeeps(nets: seq<Conkt>, ins: seq<Pin>, outs: seq<Pin>, p: Pin)
    requires Counted(nets, ins, outs)
    ensures Counted(CountUse(nets, p.name), ins + [p], outs)
  {
    hide Uses, Spot, Named;
    WithNetNearly(nets, ins, outs, p.name);
    var r := WithNet(nets, p.name);
    var i := Spot(r, p.name);
    var t := CountUse(nets, p.name);
    UsesSnoc(ins, p, p.name);
    forall k | 0 <= k < |t| ensures CountedAt(t[k], ins + [p], outs) && t[k].idx == |t| - k {
      UsesSnoc(ins, p, t[k].name);
    }
    forall x | Uses(ins + [p], x) != [] || Uses(outs, x) != [] ensures Named(t, x) {
      UsesSnoc(ins, p, x);
      NamedUpdate(r, i, t[i], x);
    }
  }

  lemma CountDriveKeeps(nets: seq<Conkt>, ins: seq<Pin>, outs: seq<Pin>, p: Pin)
    requires Counted(nets, ins, outs) && Uses(outs, p.name) == []
    ensures Counted(CountDrive(nets, p.name, p.ref), ins, outs + [p])
  {
    hide Uses, Spot, Named;
    WithNetNearly(nets, ins, outs, p.name);
    var r := WithNet(nets, p.name);
    var i := Spot(r, p.name);
    var t := CountDrive(nets, p.name, p.ref);
    UsesSnoc(outs, p, p.name);
    forall k | 0 <= k < |t| ensures CountedAt(t[k], ins, outs + [p]) && t[k].idx == |t| - k {
      UsesSnoc(outs, p, t[k].name);
    }
    forall x | Uses(ins, x) != [] || Uses(outs + [p], x) != [] ensures Named(t, x) {
      UsesSnoc(outs, p, x);
      NamedUpdate(r, i, t[i], x);
    }
  }

  /** The count after CountDrive tells whether the net was driven before. */
  lemma DriveCount(nets: seq<Conkt>, ins: seq<Pin>, outs: seq<Pin>, p: Pin)
    requires Counted(nets, ins, outs)
    ensures var t := CountDrive(nets, p.name, p.ref);
      Spot(WithNet(nets, p.name), p.name) < |t|
      && t[Spot(WithNet(nets, p.name), p.name)].inputNum == |Uses(outs, p.name)| + 1
  {
    hide Uses, Spot, Named;
    WithNetNearly(nets, ins, outs, p.name);
  }

  /** One fan-out entry written at the cursor. */
  function FillUse(nets: seq<Conkt>, p: Pin): seq<Conkt>
    requires Named(nets, p.name) && nets[Spot(nets, p.name)].iout < |nets[Spot(nets, p.name)].outputs|
  {
    var i := Spot(nets, p.name);
    nets[i := nets[i].(outputs := nets[i].outputs[nets[i].iout := Some(p.ref)], iout := nets[i].iout + 1)]
  }

  lemma SpotSame(nets: seq<Conkt>, counted: seq<Conkt>, name: string)
    requires |nets| == |counted| && forall i :: 0 <= i < |nets| ==> nets[i].name == counted[i].name
    ensures Spot(nets, name) == Spot(counted, name) && Named(nets, name) == Named(counted, name)
  {
    if nets != [] {
      SpotSame(nets[1..], counted[1..], name);
    }
    if i :| 0 <= i < |nets| && nets[i].name == name {
      assert counted[i].name == name;
    }
    if i :| 0 <= i < |counted| && counted[i].name == name {
      assert nets[i].name == name;
    }
  }

  /** The net is there and its array has room: neither exit of the second scan is ever taken. */
  lemma FillKeeps(nets: seq<Conkt>, counted: seq<Conkt>, done: seq<Pin>, p: Pin, rest: seq<Pin>, outs: seq<Pin>)
    requires Counted(counted, (done + [p]) + rest, outs) && Filled(nets, counted, done)
    ensures Named(nets, p.name) && nets[Spot(nets, p.name)].iout < nets[Spot(nets, p.name)].outputNum
    ensures nets[Spot(nets, p.name)].outputNum == |nets[Spot(nets, p.name)].outputs|
    ensures Filled(FillUse(nets, p), counted, done + [p])
  {
    hide Uses, Spot, Named;
    UsesAppend(done + [p], rest, p.name);
    UsesSnoc(done, p, p.name);
    SpotSame(nets, counted, p.name);
    var i := Spot(nets, p.name);
    assert FilledAt(nets[i], counted[i], done);
    assert CountedAt(counted[i], (done + [p]) + rest, outs);
    var t := FillUse(nets, p);
    forall k | 0 <= k < |t| ensures FilledAt(t[k], counted[k], done + [p]) {
      assert FilledAt(nets[k], counted[k], done);
      UsesSnoc(done, p, counted[k].name);
      OneOfAName(counted, i, k);
    }
  }

  lemma OneOfAName(nets: seq<Conkt>, i: nat, k: nat)
    requires i < |nets| && k < |nets|
    requires forall i, j :: 0 <= i < j < |nets| ==> nets[i].name != nets[j].name
    ensures nets[i].name == nets[k].name ==> i == k
  {
  }
}
