/** Whole simulation runs: every cycle of the event-driven simulator agrees with evaluating everything. */
module AceRun {
  import opened Seqs
  import opened AceSim
  import opened AceCounts
  import opened AceRefines

  /** The network the simulator expects: a topological order, every latch fed by an input, a latch or
      evaluated logic, every latch output of some latch, and no latch chained into a later one. */
  ghost predicate WellFormed(ntk: Ntk) {
    && Shaped(ntk) && Ordered(ntk) && RowsApart(ntk) && NoChain(ntk, |ntk.latches|)
    && (forall i {:trigger ntk.latches[i]} :: 0 <= i < |ntk.latches| ==> Live(ntk, ntk.latches[i].feed))
    && (forall n: nat :: n < |ntk.kind| && ntk.kind[n] == Bo ==> RowOf(ntk, n, 0) < |ntk.latches|)
  }

  lemma FormedParts(ntk: Ntk)
    requires WellFormed(ntk)
    ensures Shaped(ntk) && Ordered(ntk)
    ensures forall k :: 0 <= k < |ntk.order| ==> ntk.order[k] < |ntk.kind| && Logic(ntk, ntk.order[k])
  {
    hide Distinct, RowsApart, NoChain;
  }

  /** Objects that take part in evaluation. */
  predicate Live(ntk: Ntk, n: nat) { Given(ntk, n) || n in ntk.order }

  /** The first row from i on whose output terminal is n, or the number of rows. */
  function RowOf(ntk: Ntk, n: nat, i: nat): (r: nat)
    requires i <= |ntk.latches|
    ensures i <= r <= |ntk.latches| && (r < |ntk.latches| ==> ntk.latches[r].bo == n)
    decreases |ntk.latches| - i
  {
    if i == |ntk.latches| || ntk.latches[i].bo == n then i else RowOf(ntk, n, i + 1)
  }

  ghost function V(ntk: Ntk, f: NodeFun, stim: Stimulus, t: nat): (v: seq<bool>)
    requires Shaped(ntk)
    ensures |v| == |ntk.kind|
  {
    Values(Frame(ntk, f, stim, t))
  }

  /** The values of the cycle before; zeros before the first. */
  ghost function PrevV(ntk: Ntk, f: NodeFun, stim: Stimulus, t: nat): (v: seq<bool>)
    requires Shaped(ntk)
    ensures |v| == |ntk.kind|
  {
    if t == 0 then Lows(ntk) else V(ntk, f, stim, t - 1)
  }

  /** The value history of one object up to and including cycle t. */
  ghost function Column(ntk: Ntk, f: NodeFun, stim: Stimulus, t: nat, n: nat): (s: seq<bool>)
    requires Shaped(ntk) && n < |ntk.kind|
    ensures |s| == t + 1 && s[t] == V(ntk, f, stim, t)[n] && (t > 0 ==> s[t - 1] == V(ntk, f, stim, t - 1)[n])
  {
    (if t == 0 then [] else Column(ntk, f, stim, t - 1, n)) + [V(ntk, f, stim, t)[n]]
  }

  // ----- what holds in every cycle

  ghost predicate InputOk(ntk: Ntk, f: NodeFun, stim: Stimulus, t: nat, n: nat)
    requires Shaped(ntk) && n < |ntk.kind|
  {
    var o := Frame(ntk, f, stim, t)[n];
    o.value == stim(t, n) && o.ones == Ones(Column(ntk, f, stim, t, n))
      && o.toggles == PiToggles(Column(ntk, f, stim, t, n))
  }

  ghost predicate RowHolds(ntk: Ntk, f: NodeFun, stim: Stimulus, t: nat, i: nat)
    requires Shaped(ntk) && i < |ntk.latches| && RowOk(ntk, ntk.latches[i])
  {
    V(ntk, f, stim, t)[ntk.latches[i].bo] == PrevV(ntk, f, stim, t)[ntk.latches[i].feed]
  }

  ghost predicate LogicOk(ntk: Ntk, f: NodeFun, stim: Stimulus, t: nat, n: nat)
    requires Shaped(ntk) && n < |ntk.kind|
  {
    var o := Frame(ntk, f, stim, t)[n];
    o.value == Out(ntk, f, V(ntk, f, stim, t), n)
    && o.ones == Ones(Column(ntk, f, stim, t, n)) && o.toggles == Toggles(Column(ntk, f, stim, t, n))
  }

  /** A status of no change is the truth. */
  ghost predicate StatusOk(ntk: Ntk, f: NodeFun, stim: Stimulus, t: nat, n: nat)
    requires Shaped(ntk) && n < |ntk.kind|
  {
    var o := Frame(ntk, f, stim, t)[n];
    Settled(o) && (o.status == Old ==> o.value == PrevV(ntk, f, stim, t)[n])
  }

  ghost predicate Faithful(ntk: Ntk, f: NodeFun, stim: Stimulus, t: nat)
    requires Shaped(ntk)
  {
    && (forall n: nat :: n < |ntk.kind| && ntk.kind[n] == Pi ==> InputOk(ntk, f, stim, t, n))
    && (forall i: nat :: i < |ntk.latches| && RowOk(ntk, ntk.latches[i]) ==> RowHolds(ntk, f, stim, t, i))
    && (forall k: nat {:trigger ntk.order[k]} :: k < |ntk.order| ==> LogicOk(ntk, f, stim, t, ntk.order[k]))
    && (forall n: nat :: Live(ntk, n) && n < |ntk.kind| ==> StatusOk(ntk, f, stim, t, n))
  }

  /** The state in which evaluation of cycle t starts. */
  ghost function Fed(ntk: Ntk, f: NodeFun, stim: Stimulus, t: nat): (q: seq<Info>)
    requires Shaped(ntk)
    ensures |q| == |ntk.kind|
  {
    PiPhase(ntk, Before(ntk, f, stim, t), Bits(stim, t))
  }

  ghost function Still(ntk: Ntk, t: nat): set<nat>
    requires Shaped(ntk)
  {
    if t == 0 then Quiet(ntk, |ntk.order|) else set n: nat | n < |ntk.kind| && Live(ntk, n)
  }

  lemma FirstStarts(ntk: Ntk, f: NodeFun, stim: Stimulus)
    requires WellFormed(ntk) && QuietLow(ntk, f)
    ensures Starts(ntk, f, Fed(ntk, f, stim, 0), Lows(ntk), Still(ntk, 0), true)
  {
    hide Out, WellFormed, Quiet, QuietLow, Fed, Still;
    FormedParts(ntk);
    FirstGiven(ntk, f, stim);
    forall k: nat | k < |ntk.order|
      ensures var n := ntk.order[k];
        (forall i :: 0 <= i < |ntk.fanins[n]| ==> ntk.fanins[n][i] in Still(ntk, 0)) ==>
          n in Still(ntk, 0) && !Out(ntk, f, Lows(ntk), n)
    {
      FirstQuiet(ntk, f, k);
    }
  }

  lemma FirstQuiet(ntk: Ntk, f: NodeFun, k: nat)
    requires Shaped(ntk) && Ordered(ntk) && QuietLow(ntk, f) && k < |ntk.order|
    ensures var n := ntk.order[k];
      (forall i :: 0 <= i < |ntk.fanins[n]| ==> ntk.fanins[n][i] in Still(ntk, 0)) ==>
        n in Still(ntk, 0) && !Out(ntk, f, Lows(ntk), n)
  {
    hide Out, Quiet;
    QuietExactly(ntk, k);
  }

  /** The first input phase: every input and latch output is new, all logic as it was initialised. */
  lemma FirstGiven(ntk: Ntk, f: NodeFun, stim: Stimulus)
    requires Shaped(ntk)
    ensures var q := Fed(ntk, f, stim, 0);
      && (forall n: nat {:trigger q[n]} :: Given(ntk, n) ==> q[n].status == New)
      && (forall n: nat {:trigger q[n]} :: Logic(ntk, n) ==> q[n] == Info(false, Undef, 0, 0))
  {
  }

  /** Nothing but its own row writes an object's record between two cycles. */
  lemma Carried(ntk: Ntk, f: NodeFun, stim: Stimulus, t: nat, n: nat)
    requires WellFormed(ntk) && t > 0 && n < |ntk.kind| && (Logic(ntk, n) || ntk.kind[n] == Pi)
    ensures Before(ntk, f, stim, t)[n] == Frame(ntk, f, stim, t - 1)[n]
  {
    hide Ordered, RowsApart, NoChain, Frame, Together, Live;
    var s := Frame(ntk, f, stim, t - 1);
    LatchesTogether(ntk, s, |ntk.latches|);
    NotInRows(ntk, s, LatchFirst(ntk, s, |ntk.latches|), n);
  }

  lemma NotInRows(ntk: Ntk, s: seq<Info>, r: seq<Info>, n: nat)
    requires Shaped(ntk) && |s| == |r| == |ntk.kind| && Together(ntk, s, r, |ntk.latches|)
    requires n < |ntk.kind| && (Logic(ntk, n) || ntk.kind[n] == Pi)
    ensures r[n] == s[n]
  {
    forall i | 0 <= i < |ntk.latches|
      ensures n != ntk.latches[i].bi && n != ntk.latches[i].latch && n != ntk.latches[i].bo
    {
      assert RowOk(ntk, ntk.latches[i]);
    }
  }

  lemma TakenOver(ntk: Ntk, f: NodeFun, stim: Stimulus, t: nat, i: nat)
    requires WellFormed(ntk) && t > 0 && i < |ntk.latches|
    ensures RowOk(ntk, ntk.latches[i])
    ensures Before(ntk, f, stim, t)[ntk.latches[i].bo] == Frame(ntk, f, stim, t - 1)[ntk.latches[i].feed]
    ensures Before(ntk, f, stim, t)[ntk.latches[i].latch] == Frame(ntk, f, stim, t - 1)[ntk.latches[i].feed]
  {
    hide Ordered, RowsApart, NoChain, Frame;
    LatchesTogether(ntk, Frame(ntk, f, stim, t - 1), |ntk.latches|);
  }

  /** Inputs and latch outputs are settled before evaluation, and no change means no change. */
  lemma GivenStarts(ntk: Ntk, f: NodeFun, stim: Stimulus, t: nat, n: nat)
    requires WellFormed(ntk) && t > 0 && Faithful(ntk, f, stim, t - 1) && Given(ntk, n)
    ensures var o := Fed(ntk, f, stim, t)[n];
      Settled(o) && (o.status == Old ==> o.value == V(ntk, f, stim, t - 1)[n])
  {
    hide Ordered, RowsApart, NoChain, Frame, Before, LogicOk, InputOk, RowHolds, StatusOk;
    if ntk.kind[n] == Pi {
      Carried(ntk, f, stim, t, n);
      assert StatusOk(ntk, f, stim, t - 1, n);
      SettledPi(ntk, f, stim, t, n);
    } else {
      var i := RowOf(ntk, n, 0);
      TakenOver(ntk, f, stim, t, i);
      assert Live(ntk, ntk.latches[i].feed);
      assert StatusOk(ntk, f, stim, t - 1, ntk.latches[i].feed);
      assert RowHolds(ntk, f, stim, t - 1, i);
      SettledBo(ntk, f, stim, t, i);
    }
  }

  lemma SettledPi(ntk: Ntk, f: NodeFun, stim: Stimulus, t: nat, n: nat)
    requires Shaped(ntk) && t > 0 && n < |ntk.kind| && ntk.kind[n] == Pi
    requires Before(ntk, f, stim, t)[n] == Frame(ntk, f, stim, t - 1)[n] && StatusOk(ntk, f, stim, t - 1, n)
    ensures var o := Fed(ntk, f, stim, t)[n]; Settled(o) && (o.status == Old ==> o.value == V(ntk, f, stim, t - 1)[n])
  {
    hide Frame, Before;
  }

  lemma SettledBo(ntk: Ntk, f: NodeFun, stim: Stimulus, t: nat, i: nat)
    requires Shaped(ntk) && t > 0 && i < |ntk.latches| && RowOk(ntk, ntk.latches[i])
    requires Before(ntk, f, stim, t)[ntk.latches[i].bo] == Frame(ntk, f, stim, t - 1)[ntk.latches[i].feed]
    requires StatusOk(ntk, f, stim, t - 1, ntk.latches[i].feed) && RowHolds(ntk, f, stim, t - 1, i)
    ensures var o := Fed(ntk, f, stim, t)[ntk.latches[i].bo];
      Settled(o) && (o.status == Old ==> o.value == V(ntk, f, stim, t - 1)[ntk.latches[i].bo])
  {
    hide Frame, Before;
  }

  lemma LogicStarts(ntk: Ntk, f: NodeFun, stim: Stimulus, t: nat, k: nat)
    requires WellFormed(ntk) && t > 0 && Faithful(ntk, f, stim, t - 1) && k < |ntk.order|
    ensures Fed(ntk, f, stim, t)[ntk.order[k]] == Frame(ntk, f, stim, t - 1)[ntk.order[k]]
    ensures Settled(Fed(ntk, f, stim, t)[ntk.order[k]])
    ensures Out(ntk, f, V(ntk, f, stim, t - 1), ntk.order[k]) == V(ntk, f, stim, t - 1)[ntk.order[k]]
  {
    hide RowsApart, NoChain, Frame, Before, InputOk, RowHolds, Distinct, Out;
    assert Logic(ntk, ntk.order[k]);
    Carried(ntk, f, stim, t, ntk.order[k]);
    assert LogicOk(ntk, f, stim, t - 1, ntk.order[k]);
    assert StatusOk(ntk, f, stim, t - 1, ntk.order[k]);
  }

  lemma NextStarts(ntk: Ntk, f: NodeFun, stim: Stimulus, t: nat)
    requires WellFormed(ntk) && t > 0 && Faithful(ntk, f, stim, t - 1)
    ensures Starts(ntk, f, Fed(ntk, f, stim, t), PrevV(ntk, f, stim, t), Still(ntk, t), false)
  {
    hide Ordered, RowsApart, NoChain, Frame, Before, Faithful, Out, Fed;
    forall n: nat | Given(ntk, n)
      ensures var o := Fed(ntk, f, stim, t)[n]; Settled(o) && (o.status == Old ==> o.value == V(ntk, f, stim, t - 1)[n])
    {
      GivenStarts(ntk, f, stim, t, n);
    }
    forall k | 0 <= k < |ntk.order|
      ensures Fed(ntk, f, stim, t)[ntk.order[k]] == Frame(ntk, f, stim, t - 1)[ntk.order[k]]
      ensures Settled(Fed(ntk, f, stim, t)[ntk.order[k]])
      ensures Out(ntk, f, V(ntk, f, stim, t - 1), ntk.order[k]) == V(ntk, f, stim, t - 1)[ntk.order[k]]
    {
      LogicStarts(ntk, f, stim, t, k);
    }
  }

  // ----- from the evaluated frame back to what holds in the cycle

  /** The state before evaluation, at one object of the order. */
  lemma FedLogic(ntk: Ntk, f: NodeFun, stim: Stimulus, t: nat, k: nat)
    requires WellFormed(ntk) && k < |ntk.order| && (t > 0 ==> Faithful(ntk, f, stim, t - 1))
    ensures Fed(ntk, f, stim, t)[ntk.order[k]] == if t == 0 then Info(false, Undef, 0, 0)
      else Frame(ntk, f, stim, t - 1)[ntk.order[k]]
    ensures t > 0 ==> Settled(Fed(ntk, f, stim, t)[ntk.order[k]])
  {
    hide RowsApart, NoChain, Frame, Distinct;
    assert Logic(ntk, ntk.order[k]);
    if t > 0 {
      LogicStarts(ntk, f, stim, t, k);
    }
  }

  lemma LogicNext(ntk: Ntk, f: NodeFun, stim: Stimulus, t: nat, k: nat)
    requires WellFormed(ntk) && k < |ntk.order| && (t > 0 ==> Faithful(ntk, f, stim, t - 1))
    requires Done(ntk, f, Fed(ntk, f, stim, t), Frame(ntk, f, stim, t), PrevV(ntk, f, stim, t), Still(ntk, t),
      ntk.order[k])
    ensures LogicOk(ntk, f, stim, t, ntk.order[k]) && StatusOk(ntk, f, stim, t, ntk.order[k])
  {
    hide Ordered, RowsApart, NoChain, LogicOk, InputOk, RowHolds, StatusOk, Frame, Fed, Out, Still, Done, V, PrevV;
    FedLogic(ntk, f, stim, t, k);
    assert t > 0 ==> LogicOk(ntk, f, stim, t - 1, ntk.order[k]);
    LogicStep(ntk, f, stim, t, ntk.order[k]);
  }

  /** One more cycle in the history of one object. */
  lemma ColumnNext(ntk: Ntk, f: NodeFun, stim: Stimulus, t: nat, n: nat)
    requires Shaped(ntk) && n < |ntk.kind|
    ensures var v := Frame(ntk, f, stim, t)[n].value;
      var c := Column(ntk, f, stim, t, n);
      if t == 0 then Ones(c) == Bit(v) == PiToggles(c) && Toggles(c) == 0
      else
        var b := Column(ntk, f, stim, t - 1, n);
        var flip := Bit(v != Frame(ntk, f, stim, t - 1)[n].value);
        Ones(c) == Ones(b) + Bit(v) && Toggles(c) == Toggles(b) + flip && PiToggles(c) == PiToggles(b) + flip
  {
    hide Frame;
    if t > 0 {
      HistoryNext(Column(ntk, f, stim, t - 1, n), Frame(ntk, f, stim, t)[n].value);
    } else {
      HistoryOfOne(Frame(ntk, f, stim, t)[n].value);
    }
  }

  lemma LogicStep(ntk: Ntk, f: NodeFun, stim: Stimulus, t: nat, n: nat)
    requires Shaped(ntk) && n < |ntk.kind| && (t > 0 ==> LogicOk(ntk, f, stim, t - 1, n))
    requires Fed(ntk, f, stim, t)[n] == if t == 0 then Info(false, Undef, 0, 0) else Frame(ntk, f, stim, t - 1)[n]
    requires t > 0 ==> Settled(Fed(ntk, f, stim, t)[n])
    requires Done(ntk, f, Fed(ntk, f, stim, t), Frame(ntk, f, stim, t), PrevV(ntk, f, stim, t), Still(ntk, t), n)
    ensures LogicOk(ntk, f, stim, t, n) && StatusOk(ntk, f, stim, t, n)
  {
    hide Frame, Fed, Out, Still, Column, Ones, Toggles, PiToggles;
    ColumnNext(ntk, f, stim, t, n);
  }

  /** Evaluation does not write inputs or latch outputs. */
  lemma GivenNext(ntk: Ntk, f: NodeFun, stim: Stimulus, t: nat, n: nat)
    requires WellFormed(ntk) && Given(ntk, n)
    requires Evaluating(ntk, f, Fed(ntk, f, stim, t), Frame(ntk, f, stim, t), PrevV(ntk, f, stim, t), Still(ntk, t),
      |ntk.order|)
    ensures Frame(ntk, f, stim, t)[n] == Fed(ntk, f, stim, t)[n]
  {
    hide RowsApart, NoChain, Frame, Fed, Distinct, Done, Still;
    assert n !in ntk.order by {
      assert forall k :: 0 <= k < |ntk.order| ==> Logic(ntk, ntk.order[k]);
    }
    assert ntk.order[..|ntk.order|] == ntk.order;
  }

  lemma InputNext(ntk: Ntk, f: NodeFun, stim: Stimulus, t: nat, n: nat)
    requires WellFormed(ntk) && n < |ntk.kind| && ntk.kind[n] == Pi
    requires t > 0 ==> InputOk(ntk, f, stim, t - 1, n) && StatusOk(ntk, f, stim, t - 1, n)
    requires Frame(ntk, f, stim, t)[n] == Fed(ntk, f, stim, t)[n]
    ensures InputOk(ntk, f, stim, t, n) && StatusOk(ntk, f, stim, t, n)
  {
    if t > 0 {
      Carried(ntk, f, stim, t, n);
    } else {
      assert Before(ntk, f, stim, 0)[n] == Info(false, Undef, 0, 0);
    }
    InputStep(ntk, f, stim, t, n);
  }

  lemma InputStep(ntk: Ntk, f: NodeFun, stim: Stimulus, t: nat, n: nat)
    requires Shaped(ntk) && n < |ntk.kind| && ntk.kind[n] == Pi
    requires t > 0 ==> InputOk(ntk, f, stim, t - 1, n) && StatusOk(ntk, f, stim, t - 1, n)
    requires Frame(ntk, f, stim, t)[n] == Fed(ntk, f, stim, t)[n]
    requires Before(ntk, f, stim, t)[n] == if t > 0 then Frame(ntk, f, stim, t - 1)[n] else Info(false, Undef, 0, 0)
    ensures InputOk(ntk, f, stim, t, n) && StatusOk(ntk, f, stim, t, n)
  {
    hide Frame, Before, Column, Ones, Toggles, PiToggles;
    ColumnNext(ntk, f, stim, t, n);
  }

  lemma LatchNext(ntk: Ntk, f: NodeFun, stim: Stimulus, t: nat, i: nat)
    requires WellFormed(ntk) && i < |ntk.latches| && (t > 0 ==> Faithful(ntk, f, stim, t - 1))
    requires RowOk(ntk, ntk.latches[i])
      && Frame(ntk, f, stim, t)[ntk.latches[i].bo] == Fed(ntk, f, stim, t)[ntk.latches[i].bo]
    ensures RowHolds(ntk, f, stim, t, i) && StatusOk(ntk, f, stim, t, ntk.latches[i].bo)
  {
    if t > 0 {
      TakenOver(ntk, f, stim, t, i);
      assert Live(ntk, ntk.latches[i].feed);
      GivenStarts(ntk, f, stim, t, ntk.latches[i].bo);
      LatchStep(ntk, f, stim, t, i);
    } else {
      assert Before(ntk, f, stim, 0)[ntk.latches[i].bo] == Info(false, New, 0, 0);
      LatchStep(ntk, f, stim, t, i);
    }
  }

  lemma LatchStep(ntk: Ntk, f: NodeFun, stim: Stimulus, t: nat, i: nat)
    requires Shaped(ntk) && i < |ntk.latches| && RowOk(ntk, ntk.latches[i])
    requires Frame(ntk, f, stim, t)[ntk.latches[i].bo] == Fed(ntk, f, stim, t)[ntk.latches[i].bo]
    requires Before(ntk, f, stim, t)[ntk.latches[i].bo] ==
      if t > 0 then Frame(ntk, f, stim, t - 1)[ntk.latches[i].feed] else Info(false, New, 0, 0)
    requires t > 0 ==> var o := Fed(ntk, f, stim, t)[ntk.latches[i].bo];
      Settled(o) && (o.status == Old ==> o.value == V(ntk, f, stim, t - 1)[ntk.latches[i].bo])
    ensures RowHolds(ntk, f, stim, t, i) && StatusOk(ntk, f, stim, t, ntk.latches[i].bo)
  {
    hide Frame, Before;
  }

  lemma FrameIsEvaluated(ntk: Ntk, f: NodeFun, stim: Stimulus, t: nat)
    requires WellFormed(ntk) && QuietLow(ntk, f) && (t > 0 ==> Faithful(ntk, f, stim, t - 1))
    ensures Evaluating(ntk, f, Fed(ntk, f, stim, t), Frame(ntk, f, stim, t), PrevV(ntk, f, stim, t), Still(ntk, t),
      |ntk.order|)
  {
    hide Ordered, RowsApart, NoChain, Starts, Evaluating, Faithful, Still, QuietLow, Before, V;
    if t == 0 {
      FirstStarts(ntk, f, stim);
    } else {
      NextStarts(ntk, f, stim, t);
    }
    EvaluationIsRight(ntk, f, Fed(ntk, f, stim, t), PrevV(ntk, f, stim, t), Still(ntk, t), t == 0, |ntk.order|);
  }

  /** MAIN RESULT: in every cycle of every run inputs have their stream's value, latch outputs hold what
      fed them one cycle before, all logic has its function's value, a status of no change is true, and
      the counters are the true ones and toggles of the history (an input's first one counted too). */
  lemma {:induction false} RunIsFaithful(ntk: Ntk, f: NodeFun, stim: Stimulus, t: nat)
    requires WellFormed(ntk) && QuietLow(ntk, f)
    ensures Faithful(ntk, f, stim, t)
    decreases t
  {
    hide *;
    if t > 0 {
      RunIsFaithful(ntk, f, stim, t - 1);
    }
    FrameIsEvaluated(ntk, f, stim, t);
    FaithfulNext(ntk, f, stim, t);
  }

  lemma RowAt(ntk: Ntk, i: nat)
    requires Shaped(ntk) && i < |ntk.latches|
    ensures RowOk(ntk, ntk.latches[i])
  {
  }

  lemma RowFor(ntk: Ntk, n: nat)
    requires WellFormed(ntk) && n < |ntk.kind| && ntk.kind[n] == Bo
    ensures RowOf(ntk, n, 0) < |ntk.latches| && ntk.latches[RowOf(ntk, n, 0)].bo == n
  {
  }

  lemma FaithfulNext(ntk: Ntk, f: NodeFun, stim: Stimulus, t: nat)
    requires WellFormed(ntk) && (t > 0 ==> Faithful(ntk, f, stim, t - 1))
    requires Evaluating(ntk, f, Fed(ntk, f, stim, t), Frame(ntk, f, stim, t), PrevV(ntk, f, stim, t), Still(ntk, t),
      |ntk.order|)
    ensures Faithful(ntk, f, stim, t)
  {
    hide Done, LogicOk, InputOk, RowHolds, StatusOk, Fed, Frame, Still, V, Shaped, WellFormed, Evaluating;
    FormedParts(ntk);
    hide Faithful;
    LogicFaithful(ntk, f, stim, t);
    InputsFaithful(ntk, f, stim, t);
    RowsFaithful(ntk, f, stim, t);
    forall n: nat | n < |ntk.kind| && ntk.kind[n] == Bo ensures StatusOk(ntk, f, stim, t, n) {
      RowFor(ntk, n);
    }
    Assembled(ntk, f, stim, t);
  }

  lemma Assembled(ntk: Ntk, f: NodeFun, stim: Stimulus, t: nat)
    requires Shaped(ntk)
    requires forall k: nat {:trigger ntk.order[k]} :: k < |ntk.order| ==>
      LogicOk(ntk, f, stim, t, ntk.order[k]) && StatusOk(ntk, f, stim, t, ntk.order[k])
    requires forall n: nat :: n < |ntk.kind| && ntk.kind[n] == Pi ==>
      InputOk(ntk, f, stim, t, n) && StatusOk(ntk, f, stim, t, n)
    requires forall i: nat {:trigger ntk.latches[i]} :: i < |ntk.latches| ==>
      RowOk(ntk, ntk.latches[i]) && RowHolds(ntk, f, stim, t, i)
    requires forall n: nat :: n < |ntk.kind| && ntk.kind[n] == Bo ==> StatusOk(ntk, f, stim, t, n)
    ensures Faithful(ntk, f, stim, t)
  {
    hide LogicOk, InputOk, RowHolds, StatusOk, Frame, Shaped, RowOk;
  }

  lemma LogicFaithful(ntk: Ntk, f: NodeFun, stim: Stimulus, t: nat)
    requires WellFormed(ntk) && (t > 0 ==> Faithful(ntk, f, stim, t - 1))
    requires Evaluating(ntk, f, Fed(ntk, f, stim, t), Frame(ntk, f, stim, t), PrevV(ntk, f, stim, t), Still(ntk, t),
      |ntk.order|)
    ensures forall k: nat {:trigger ntk.order[k]} :: k < |ntk.order| ==>
      ntk.order[k] < |ntk.kind| && LogicOk(ntk, f, stim, t, ntk.order[k]) && StatusOk(ntk, f, stim, t, ntk.order[k])
  {
    hide Done, LogicOk, InputOk, RowHolds, StatusOk, Fed, Frame, Still, V, Shaped, WellFormed, Evaluating, Faithful;
    FormedParts(ntk);
    forall k: nat | k < |ntk.order|
      ensures ntk.order[k] < |ntk.kind| && LogicOk(ntk, f, stim, t, ntk.order[k])
      && StatusOk(ntk, f, stim, t, ntk.order[k])
    {
      OrderDone(ntk, f, stim, t, k);
      LogicNext(ntk, f, stim, t, k);
    }
  }

  lemma InputsFaithful(ntk: Ntk, f: NodeFun, stim: Stimulus, t: nat)
    requires WellFormed(ntk) && (t > 0 ==> Faithful(ntk, f, stim, t - 1))
    requires Evaluating(ntk, f, Fed(ntk, f, stim, t), Frame(ntk, f, stim, t), PrevV(ntk, f, stim, t), Still(ntk, t),
      |ntk.order|)
    ensures forall n: nat :: n < |ntk.kind| && ntk.kind[n] == Pi ==>
      InputOk(ntk, f, stim, t, n) && StatusOk(ntk, f, stim, t, n)
  {
    hide Done, LogicOk, InputOk, RowHolds, StatusOk, Fed, Frame, Still, V, Shaped, WellFormed, Evaluating, Faithful;
    FormedParts(ntk);
    forall n: nat | n < |ntk.kind| && ntk.kind[n] == Pi
      ensures InputOk(ntk, f, stim, t, n) && StatusOk(ntk, f, stim, t, n)
    {
      GivenNext(ntk, f, stim, t, n);
      InputBefore(ntk, f, stim, t, n);
      InputNext(ntk, f, stim, t, n);
    }
  }

  lemma RowsFaithful(ntk: Ntk, f: NodeFun, stim: Stimulus, t: nat)
    requires WellFormed(ntk) && (t > 0 ==> Faithful(ntk, f, stim, t - 1))
    requires Evaluating(ntk, f, Fed(ntk, f, stim, t), Frame(ntk, f, stim, t), PrevV(ntk, f, stim, t), Still(ntk, t),
      |ntk.order|)
    ensures forall i: nat {:trigger ntk.latches[i]} :: i < |ntk.latches| ==>
      RowOk(ntk, ntk.latches[i]) && RowHolds(ntk, f, stim, t, i) && StatusOk(ntk, f, stim, t, ntk.latches[i].bo)
  {
    hide Done, LogicOk, InputOk, RowHolds, StatusOk, Fed, Frame, Still, V, Shaped, WellFormed, Evaluating, Faithful;
    FormedParts(ntk);
    forall i: nat | i < |ntk.latches|
      ensures RowOk(ntk, ntk.latches[i]) && RowHolds(ntk, f, stim, t, i) && StatusOk(ntk, f, stim, t, ntk.latches[i].bo)
    {
      RowAt(ntk, i);
      GivenNext(ntk, f, stim, t, ntk.latches[i].bo);
      LatchNext(ntk, f, stim, t, i);
    }
  }

  lemma InputBefore(ntk: Ntk, f: NodeFun, stim: Stimulus, t: nat, n: nat)
    requires Shaped(ntk) && n < |ntk.kind| && ntk.kind[n] == Pi && (t > 0 ==> Faithful(ntk, f, stim, t - 1))
    ensures t > 0 ==> InputOk(ntk, f, stim, t - 1, n) && StatusOk(ntk, f, stim, t - 1, n)
  {
    hide InputOk, StatusOk, LogicOk, RowHolds;
    assert Live(ntk, n);
  }

  lemma OrderDone(ntk: Ntk, f: NodeFun, stim: Stimulus, t: nat, k: nat)
    requires Shaped(ntk) && k < |ntk.order|
    requires Evaluating(ntk, f, Fed(ntk, f, stim, t), Frame(ntk, f, stim, t), PrevV(ntk, f, stim, t), Still(ntk, t),
      |ntk.order|)
    ensures ntk.order[k] < |ntk.kind|
    ensures Done(ntk, f, Fed(ntk, f, stim, t), Frame(ntk, f, stim, t), PrevV(ntk, f, stim, t), Still(ntk, t),
      ntk.order[k])
  {
    hide Done, Frame, Fed, PrevV;
  }
}
