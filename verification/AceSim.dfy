/** The switching-activity simulator of ACE 2 (sim.c): objects whose inputs did not change are not
    evaluated again. */
module AceSim {
  import opened Seqs

  datatype Kind = Pi | Po | Bi | Latch | Bo | Node

  /** One latch: the object that feeds its input terminal, the terminal, the latch, its output terminal. */
  datatype LatchRow = LatchRow(feed: nat, bi: nat, latch: nat, bo: nat)

  /** order is the depth-first order in which logic is evaluated. */
  datatype Ntk = Ntk(kind: seq<Kind>, fanins: seq<seq<nat>>, order: seq<nat>, latches: seq<LatchRow>)

  datatype Status = Undef | New | Old | Sim

  datatype Info = Info(value: bool, status: Status, ones: nat, toggles: nat)

  type NodeFun = (nat, seq<bool>) -> bool

  /** bit(t, n) is the value of primary input n in cycle t, read from a vector or drawn at random. */
  type Stimulus = (nat, nat) -> bool

  function Bits(stim: Stimulus, t: nat): nat -> bool {
    (n: nat) => stim(t, n)
  }

  ghost predicate Shaped(ntk: Ntk) {
    && |ntk.fanins| == |ntk.kind|
    && (forall n, i :: 0 <= n < |ntk.fanins| && 0 <= i < |ntk.fanins[n]| ==> ntk.fanins[n][i] < |ntk.kind|)
    && (forall i :: 0 <= i < |ntk.order| ==> ntk.order[i] < |ntk.kind|)
    && (forall i :: 0 <= i < |ntk.order| ==> ntk.kind[ntk.order[i]] == Po ==> |ntk.fanins[ntk.order[i]]| > 0)
    && (forall i :: 0 <= i < |ntk.latches| ==> RowOk(ntk, ntk.latches[i]))
  }

  predicate RowOk(ntk: Ntk, r: LatchRow) {
    && r.feed < |ntk.kind| && r.bi < |ntk.kind| && r.latch < |ntk.kind| && r.bo < |ntk.kind|
    && ntk.kind[r.bi] == Bi && ntk.kind[r.latch] == Latch && ntk.kind[r.bo] == Bo
    && (ntk.kind[r.feed] == Pi || ntk.kind[r.feed] == Bo || ntk.kind[r.feed] == Node)
  }

  // ----- one object

  /** get_pi_values for one input. */
  function PiNext(o: Info, bit: bool): Info {
    if o.status == Undef then Info(bit, New, if bit then 1 else 0, if bit then 1 else 0)
    else if o.value == bit then o.(status := Old, ones := o.ones + if bit then 1 else 0)
    else Info(bit, New, o.ones + (if bit then 1 else 0), o.toggles + 1)
  }

  /** getFaninStatus */
  function FaninStatus(s: seq<Info>, fanins: seq<nat>): Status
    requires forall i :: 0 <= i < |fanins| ==> fanins[i] < |s|
  {
    if exists i :: 0 <= i < |fanins| && s[fanins[i]].status == Undef then Undef
    else if exists i :: 0 <= i < |fanins| && (s[fanins[i]].status == New || s[fanins[i]].status == Sim) then New
    else Old
  }

  /** One of the first k fanins is new. */
  predicate NewBefore(s: seq<Info>, fanins: seq<nat>, k: nat)
    requires k <= |fanins| && forall i :: 0 <= i < |fanins| ==> fanins[i] < |s|
  {
    exists i :: 0 <= i < k && s[fanins[i]].status == New
  }

  /** The status that only other users of the objects set. */
  ghost predicate NoSim(s: seq<Info>) {
    forall n :: 0 <= n < |s| ==> s[n].status != Sim
  }

  function At(v: seq<bool>, fanins: seq<nat>): (r: seq<bool>)
    requires forall i :: 0 <= i < |fanins| ==> fanins[i] < |v|
    ensures |r| == |fanins| && forall i :: 0 <= i < |r| ==> r[i] == v[fanins[i]]
  {
    seq(|fanins|, i requires 0 <= i < |fanins| => v[fanins[i]])
  }

  /** The value an object takes from the values of its fanins. */
  function Out(ntk: Ntk, f: NodeFun, v: seq<bool>, n: nat): bool
    requires n < |ntk.kind| && n < |ntk.fanins| && forall i :: 0 <= i < |ntk.fanins[n]| ==> ntk.fanins[n][i] < |v|
  {
    if ntk.kind[n] == Node then
      f(n, At(v, ntk.fanins[n]))
    else ntk.fanins[n] != [] && v[ntk.fanins[n][0]]
  }

  function Values(s: seq<Info>): (v: seq<bool>)
    ensures |v| == |s| && forall i :: 0 <= i < |s| ==> v[i] == s[i].value
  {
    seq(|s|, i requires 0 <= i < |s| => s[i].value)
  }

  /** One step of evaluate_circuit: what an object becomes, given its fanins' status and new value. */
  function EvalNext(o: Info, st: Status, v: bool): Info {
    match st
    case Undef => o.(status := Undef)
    case Old => o.(status := Old, ones := o.ones + if o.value then 1 else 0)
    case _ =>
      var changed := o.value != v || o.status == Undef;
      Info(v, if changed then New else Old, o.ones + (if v then 1 else 0),
           o.toggles + (if changed && o.status != Undef then 1 else 0))
  }

  predicate Evaluated(k: Kind) { k != Pi && k != Bo }

  // ----- the three phases of a cycle

  ghost function PiPhase(ntk: Ntk, s: seq<Info>, bits: nat -> bool): (r: seq<Info>)
    requires |s| == |ntk.kind|
    ensures |r| == |s| && forall n :: 0 <= n < |s| ==> r[n] == if ntk.kind[n] == Pi then PiNext(s[n], bits(n)) else s[n]
  {
    seq(|s|, n requires 0 <= n < |s| => if ntk.kind[n] == Pi then PiNext(s[n], bits(n)) else s[n])
  }

  /** evaluate_circuit after k objects of the order. */
  ghost function EvalFirst(ntk: Ntk, f: NodeFun, s: seq<Info>, k: nat): (r: seq<Info>)
    requires Shaped(ntk) && |s| == |ntk.kind| && k <= |ntk.order|
    ensures |r| == |s|
  {
    if k == 0 then s
    else
      var p := EvalFirst(ntk, f, s, k - 1);
      var n := ntk.order[k - 1];
      if Evaluated(ntk.kind[n]) then p[n := EvalNext(p[n], FaninStatus(p, ntk.fanins[n]), Out(ntk, f, Values(p), n))]
        else p
  }

  /** update_FFs after k latches: each row takes over the feeding object's record. */
  ghost function LatchFirst(ntk: Ntk, s: seq<Info>, k: nat): (r: seq<Info>)
    requires Shaped(ntk) && |s| == |ntk.kind| && k <= |ntk.latches|
    ensures |r| == |s|
  {
    if k == 0 then s
    else
      var p := LatchFirst(ntk, s, k - 1);
      var row := ntk.latches[k - 1];
      assert RowOk(ntk, row);
      p[row.bi := p[row.feed]][row.latch := p[row.feed]][row.bo := p[row.feed]]
  }

  lemma EvalNone(ntk: Ntk, f: NodeFun, s: seq<Info>)
    requires Shaped(ntk) && |s| == |ntk.kind|
    ensures EvalFirst(ntk, f, s, 0) == s
  {
  }

  lemma EvalStep(ntk: Ntk, f: NodeFun, s: seq<Info>, k: nat)
    requires Shaped(ntk) && |s| == |ntk.kind| && k < |ntk.order| && Evaluated(ntk.kind[ntk.order[k]])
    ensures var p := EvalFirst(ntk, f, s, k);
      var n := ntk.order[k];
      EvalFirst(ntk, f, s, k + 1) == p[n := EvalNext(p[n], FaninStatus(p, ntk.fanins[n]), Out(ntk, f, Values(p), n))]
  {
    hide EvalNext, FaninStatus, Out;
  }

  lemma LatchNone(ntk: Ntk, s: seq<Info>)
    requires Shaped(ntk) && |s| == |ntk.kind|
    ensures LatchFirst(ntk, s, 0) == s
  {
  }

  lemma LatchAlso(ntk: Ntk, s: seq<Info>, k: nat)
    requires Shaped(ntk) && |s| == |ntk.kind| && k < |ntk.latches|
    ensures RowOk(ntk, ntk.latches[k])
    ensures var p := LatchFirst(ntk, s, k);
      var row := ntk.latches[k];
      LatchFirst(ntk, s, k + 1) == p[row.bi := p[row.feed]][row.latch := p[row.feed]][row.bo := p[row.feed]]
  {
  }

  // ----- the imperative simulator

  class Simulator {
    const ntk: Ntk
    const info: array<Info>

    constructor (ntk: Ntk)
      ensures this.ntk == ntk && fresh(info) && info[..] == Initial(ntk)
    {
      this.ntk := ntk;
      info := new Info[|ntk.kind|](n requires 0 <= n < |ntk.kind| =>
        Info(false, if ntk.kind[n] == Bo then New else Undef, 0, 0));
    }

    method GetPiValues(bits: nat -> bool)
      requires info.Length == |ntk.kind|
      modifies info
      ensures info[..] == PiPhase(ntk, old(info[..]), bits)
      ensures NoSim(old(info[..])) ==> NoSim(info[..])
    {
      for i := 0 to info.Length
        invariant forall n :: 0 <= n < info.Length ==>
          info[n] == if n < i && ntk.kind[n] == Pi then PiNext(old(info[n]), bits(n)) else old(info[n])
      {
        if ntk.kind[i] == Pi {
          var o := info[i];
          if o.status == Undef {
            info[i] := if bits(i) then Info(true, New, 1, 1) else Info(false, New, 0, 0);
          } else if !o.value {
            info[i] := if bits(i) then Info(true, New, o.ones + 1, o.toggles + 1) else o.(status := Old);
          } else {
            info[i] := if !bits(i) then Info(false, New, o.ones, o.toggles + 1)
              else o.(ones := o.ones + 1, status := Old);
          }
        }
      }
    }

    method GetFaninStatus(n: nat) returns (st: Status)
      requires Shaped(ntk) && info.Length == |ntk.kind| && n < |ntk.kind|
      ensures st == FaninStatus(info[..], ntk.fanins[n])
    {
      var fanins := ntk.fanins[n];
      for i := 0 to |fanins|
        invariant forall j :: 0 <= j < i ==> info[fanins[j]].status != Undef
      {
        if info[fanins[i]].status == Undef {
          assert info[..][fanins[i]].status == Undef;
          return Undef;
        }
      }
      for i := 0 to |fanins|
        invariant forall j :: 0 <= j < i ==> info[fanins[j]].status != New && info[fanins[j]].status != Sim
      {
        if info[fanins[i]].status == New || info[fanins[i]].status == Sim {
          assert info[..][fanins[i]].status == info[fanins[i]].status;
          return New;
        }
      }
      return Old;
    }

    /** getFaninValues: None, a null pointer, when no fanin is new; an undefined fanin before the first
        new one would trip its assertion. */
    method GetFaninValues(n: nat) returns (vs: Option<seq<bool>>)
      requires Shaped(ntk) && info.Length == |ntk.kind| && n < |ntk.kind|
      requires forall i :: 0 <= i < |ntk.fanins[n]| && info[ntk.fanins[n][i]].status == Undef ==>
        NewBefore(info[..], ntk.fanins[n], i)
      ensures vs == if NewBefore(info[..], ntk.fanins[n], |ntk.fanins[n]|)
        then Some(At(Values(info[..]), ntk.fanins[n])) else None
    {
      var fanins := ntk.fanins[n];
      var i := 0;
      while i < |fanins| && info[fanins[i]].status != New
        invariant 0 <= i <= |fanins| && !NewBefore(info[..], fanins, i)
      {
        assert info[fanins[i]].status != Undef;
        i := i + 1;
      }
      if i >= |fanins| {
        return None;
      }
      assert info[..][fanins[i]].status == New;
      var values: seq<bool> := [];
      for j := 0 to |fanins|
        invariant |values| == j && forall k :: 0 <= k < j ==> values[k] == info[fanins[k]].value
      {
        values := values + [info[fanins[j]].value];
      }
      assert values == At(Values(info[..]), fanins);
      vs := Some(values);
    }

    method EvaluateOne(f: NodeFun, n: nat)
      requires Shaped(ntk) && info.Length == |ntk.kind| && n < |ntk.kind| && Evaluated(ntk.kind[n])
      requires ntk.kind[n] != Node ==> ntk.fanins[n] != []
      requires NoSim(info[..])
      modifies info
      ensures NoSim(info[..])
      ensures info[..] == old(info[..])[n := EvalNext(old(info[n]), FaninStatus(old(info[..]), ntk.fanins[n]),
                                                     Out(ntk, f, Values(old(info[..])), n))]
    {
      var st := GetFaninStatus(n);
      var o := info[n];
      if st == Undef {
        info[n] := o.(status := Undef);
      } else if st == Old {
        info[n] := o.(status := Old, ones := o.ones + if o.value then 1 else 0);
      } else {
        var v;
        if ntk.kind[n] == Node {
          var vs := GetFaninValues(n);
          assert vs.Some?;
          v := f(n, vs.value);
        } else {
          v := info[ntk.fanins[n][0]].value;
        }
        if o.value != v || o.status == Undef {
          o := o.(value := v);
          if o.status != Undef {
            o := o.(toggles := o.toggles + 1);
          }
          o := o.(status := New);
        } else {
          o := o.(status := Old);
        }
        info[n] := o.(ones := o.ones + if o.value then 1 else 0);
      }
    }

    method EvaluateCircuit(f: NodeFun)
      requires Shaped(ntk) && info.Length == |ntk.kind|
      requires forall i :: 0 <= i < |ntk.order| ==> ntk.kind[ntk.order[i]] == Node || ntk.kind[ntk.order[i]] == Po
      requires NoSim(info[..])
      modifies info
      ensures NoSim(info[..])
      ensures info[..] == EvalFirst(ntk, f, old(info[..]), |ntk.order|)
    {
      hide EvalFirst, EvalNext, FaninStatus, Out;
      ghost var s := info[..];
      EvalNone(ntk, f, s);
      for i := 0 to |ntk.order|
        invariant NoSim(info[..]) && info[..] == EvalFirst(ntk, f, s, i)
      {
        EvalStep(ntk, f, s, i);
        EvaluateOne(f, ntk.order[i]);
      }
    }

    method UpdateFFs()
      requires Shaped(ntk) && info.Length == |ntk.kind|
      modifies info
      ensures info[..] == LatchFirst(ntk, old(info[..]), |ntk.latches|)
      ensures NoSim(old(info[..])) ==> NoSim(info[..])
    {
      hide LatchFirst;
      ghost var s := info[..];
      LatchNone(ntk, s);
      for i := 0 to |ntk.latches|
        invariant info[..] == LatchFirst(ntk, s, i)
        invariant NoSim(s) ==> NoSim(info[..])
      {
        var row := ntk.latches[i];
        LatchAlso(ntk, s, i);
        ghost var p := info[..];
        info[row.bi] := info[row.feed];
        info[row.latch] := info[row.feed];
        info[row.bo] := info[row.feed];
        assert info[..] == p[row.bi := p[row.feed]][row.latch := p[row.feed]][row.bo := p[row.feed]];
      }
    }

    /** The simulation loop of ace_sim_activities. */
    method SimActivities(f: NodeFun, stim: Stimulus, maxCycles: nat)
      requires Shaped(ntk) && info.Length == |ntk.kind| && info[..] == Initial(ntk)
      requires forall i :: 0 <= i < |ntk.order| ==> ntk.kind[ntk.order[i]] == Node || ntk.kind[ntk.order[i]] == Po
      modifies info
      ensures info[..] == Before(ntk, f, stim, maxCycles)
    {
      for t := 0 to maxCycles
        invariant info[..] == Before(ntk, f, stim, t) && NoSim(info[..])
      {
        GetPiValues(Bits(stim, t));
        EvaluateCircuit(f);
        UpdateFFs();
      }
    }
  }

  ghost function Initial(ntk: Ntk): (s: seq<Info>)
    ensures |s| == |ntk.kind|
  {
    seq(|ntk.kind|, n requires 0 <= n < |ntk.kind| => Info(false, if ntk.kind[n] == Bo then New else Undef, 0, 0))
  }

  /** The objects before cycle t. */
  ghost function Before(ntk: Ntk, f: NodeFun, stim: Stimulus, t: nat): (s: seq<Info>)
    requires Shaped(ntk)
    ensures |s| == |ntk.kind|
    decreases t, 1
  {
    if t == 0 then Initial(ntk) else LatchFirst(ntk, Frame(ntk, f, stim, t - 1), |ntk.latches|)
  }

  /** The objects in cycle t: after evaluation, before the latches take over. */
  ghost function Frame(ntk: Ntk, f: NodeFun, stim: Stimulus, t: nat): (s: seq<Info>)
    requires Shaped(ntk)
    ensures |s| == |ntk.kind|
    decreases t, 2
  {
    EvalFirst(ntk, f, PiPhase(ntk, Before(ntk, f, stim, t), Bits(stim, t)), |ntk.order|)
  }
}
