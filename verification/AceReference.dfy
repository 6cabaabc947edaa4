/** Full evaluation, and exactly when the event-driven simulator agrees with it. */
module AceReference {
  import opened Seqs
  import opened AceSim
  import opened AceCounts
  import opened AceRefines
  import opened AceRun

  // ----- the reference: every cycle evaluates everything

  ghost function Full(ntk: Ntk, f: NodeFun, v: seq<bool>, k: nat): (r: seq<bool>)
    requires Shaped(ntk) && |v| == |ntk.kind| && k <= |ntk.order|
    ensures |r| == |v|
  {
    if k == 0 then v
    else
      var p := Full(ntk, f, v, k - 1);
      p[ntk.order[k - 1] := Out(ntk, f, p, ntk.order[k - 1])]
  }

  /** Inputs from the stream, latch outputs from what fed them a cycle earlier, zero at the start. */
  ghost function Base(ntk: Ntk, stim: Stimulus, prev: seq<bool>, t: nat): (v: seq<bool>)
    requires Shaped(ntk) && |prev| == |ntk.kind|
    ensures |v| == |ntk.kind|
  {
    seq(|ntk.kind|, n requires 0 <= n < |ntk.kind| =>
      if ntk.kind[n] == Pi then stim(t, n)
      else if ntk.kind[n] == Bo && RowOf(ntk, n, 0) < |ntk.latches|
        then RowAt(ntk, RowOf(ntk, n, 0)); prev[ntk.latches[RowOf(ntk, n, 0)].feed]
      else false)
  }

  ghost function Reference(ntk: Ntk, f: NodeFun, stim: Stimulus, t: nat): (v: seq<bool>)
    requires Shaped(ntk)
    ensures |v| == |ntk.kind|
  {
    Full(ntk, f, Base(ntk, stim, if t == 0 then Lows(ntk) else Reference(ntk, f, stim, t - 1), t), |ntk.order|)
  }

  /** Evaluating in topological order reaches the one consistent valuation over the given objects. */
  lemma {:induction false} FullIsConsistent(ntk: Ntk, f: NodeFun, base: seq<bool>, v: seq<bool>, k: nat)
    requires Shaped(ntk) && Ordered(ntk) && |base| == |v| == |ntk.kind| && k <= |ntk.order|
    requires Consistent(ntk, f, v) && forall n: nat :: Given(ntk, n) ==> base[n] == v[n]
    ensures forall n: nat {:trigger v[n]} :: n < |v| && KnownBefore(ntk, n, k) ==> Full(ntk, f, base, k)[n] == v[n]
  {
    hide Distinct, Out;
    if k > 0 {
      FullIsConsistent(ntk, f, base, v, k - 1);
      var p, n := Full(ntk, f, base, k - 1), ntk.order[k - 1];
      assert ntk.order[..k] == ntk.order[..k - 1] + [n];
      forall i | 0 <= i < |ntk.fanins[n]| ensures p[ntk.fanins[n][i]] == v[ntk.fanins[n][i]] {
        assert KnownBefore(ntk, ntk.fanins[n][i], k - 1);
      }
      OutSame(ntk, f, p, v, n);
      assert Logic(ntk, n);
    }
  }

  lemma FaithfulParts(ntk: Ntk, f: NodeFun, stim: Stimulus, t: nat)
    requires WellFormed(ntk) && Faithful(ntk, f, stim, t)
    ensures Consistent(ntk, f, V(ntk, f, stim, t))
    ensures forall n: nat :: n < |ntk.kind| && ntk.kind[n] == Pi ==> V(ntk, f, stim, t)[n] == stim(t, n)
    ensures forall n: nat :: n < |ntk.kind| && ntk.kind[n] == Bo ==>
      V(ntk, f, stim, t)[n] == PrevV(ntk, f, stim, t)[ntk.latches[RowOf(ntk, n, 0)].feed]
  {
    hide Ordered, RowsApart, NoChain, Frame, Out, Live, PrevV, StatusOk;
    forall k | 0 <= k < |ntk.order|
      ensures V(ntk, f, stim, t)[ntk.order[k]] == Out(ntk, f, V(ntk, f, stim, t), ntk.order[k])
    {
      assert LogicOk(ntk, f, stim, t, ntk.order[k]);
    }
    forall n: nat | n < |ntk.kind| && ntk.kind[n] == Pi ensures V(ntk, f, stim, t)[n] == stim(t, n) {
      assert InputOk(ntk, f, stim, t, n);
    }
    forall n: nat | n < |ntk.kind| && ntk.kind[n] == Bo
      ensures V(ntk, f, stim, t)[n] == PrevV(ntk, f, stim, t)[ntk.latches[RowOf(ntk, n, 0)].feed]
    {
      RowFor(ntk, n);
      RowAt(ntk, RowOf(ntk, n, 0));
      assert RowHolds(ntk, f, stim, t, RowOf(ntk, n, 0));
    }
  }

  /** Event-driven simulation equals full evaluation at every input, latch output and logic object,
      in every cycle of every run. */
  lemma {:induction false} AgreesWithReference(ntk: Ntk, f: NodeFun, stim: Stimulus, t: nat)
    requires WellFormed(ntk) && QuietLow(ntk, f)
    ensures forall n: nat {:trigger Live(ntk, n)} :: Live(ntk, n) && n < |ntk.kind| ==>
      V(ntk, f, stim, t)[n] == Reference(ntk, f, stim, t)[n]
    decreases t
  {
    hide *;
    RunIsFaithful(ntk, f, stim, t);
    if t > 0 {
      AgreesWithReference(ntk, f, stim, t - 1);
    }
    AgreesNext(ntk, f, stim, t);
  }

  lemma AgreesNext(ntk: Ntk, f: NodeFun, stim: Stimulus, t: nat)
    requires WellFormed(ntk) && Faithful(ntk, f, stim, t)
    requires t > 0 ==> forall n: nat {:trigger Live(ntk, n)} :: Live(ntk, n) && n < |ntk.kind| ==>
      V(ntk, f, stim, t - 1)[n] == Reference(ntk, f, stim, t - 1)[n]
    ensures forall n: nat {:trigger Live(ntk, n)} :: Live(ntk, n) && n < |ntk.kind| ==>
      V(ntk, f, stim, t)[n] == Reference(ntk, f, stim, t)[n]
  {
    hide Distinct, RowsApart, NoChain, V, Faithful, Out, Consistent;
    FaithfulParts(ntk, f, stim, t);
    var prev := if t == 0 then Lows(ntk) else Reference(ntk, f, stim, t - 1);
    var base := Base(ntk, stim, prev, t);
    forall n: nat | Given(ntk, n) ensures base[n] == V(ntk, f, stim, t)[n] {
      if ntk.kind[n] == Bo {
        RowFor(ntk, n);
        assert Live(ntk, ntk.latches[RowOf(ntk, n, 0)].feed);
      }
    }
    FullIsConsistent(ntk, f, base, V(ntk, f, stim, t), |ntk.order|);
    assert ntk.order[..|ntk.order|] == ntk.order;
  }

  // ----- logic that never sees a change

  ghost predicate QuietSoFar(ntk: Ntk, r: seq<Info>, k: nat)
    requires Shaped(ntk) && |r| == |ntk.kind| && k <= |ntk.order|
  {
    forall n: nat {:trigger r[n]} :: n < |r| ==>
      (n in ntk.order[..k] && n in Quiet(ntk, |ntk.order|) ==> r[n].status == Old && !r[n].value)
      && (Logic(ntk, n) && n !in ntk.order[..k] ==> !r[n].value)
  }

  lemma QuietStep(ntk: Ntk, f: NodeFun, r: seq<Info>, k: nat)
    requires Shaped(ntk) && Ordered(ntk) && |r| == |ntk.kind| && k < |ntk.order| && QuietSoFar(ntk, r, k)
    ensures QuietSoFar(ntk,
      r[ntk.order[k] := EvalNext(r[ntk.order[k]], FaninStatus(r, ntk.fanins[ntk.order[k]]),
      Out(ntk, f, Values(r), ntk.order[k]))], k + 1)
  {
    hide Distinct, Out, Quiet;
    var n := ntk.order[k];
    assert ntk.order[..k + 1] == ntk.order[..k] + [n];
    NotBefore(ntk.order, k);
    if n in Quiet(ntk, |ntk.order|) {
      QuietExactly(ntk, k);
      forall i | 0 <= i < |ntk.fanins[n]| ensures r[ntk.fanins[n][i]].status == Old {
        QuietKnown(ntk, k, i);
      }
      assert Logic(ntk, n);
    }
  }

  lemma QuietKnown(ntk: Ntk, k: nat, i: nat)
    requires Shaped(ntk) && Ordered(ntk) && k < |ntk.order| && i < |ntk.fanins[ntk.order[k]]|
    requires ntk.fanins[ntk.order[k]][i] in Quiet(ntk, |ntk.order|)
    ensures ntk.fanins[ntk.order[k]][i] in ntk.order[..k]
  {
    hide Distinct, Quiet;
    assert KnownBefore(ntk, ntk.fanins[ntk.order[k]][i], k);
    QuietIsOrdered(ntk, |ntk.order|);
    assert forall j :: 0 <= j < |ntk.order| ==> Logic(ntk, ntk.order[j]);
    assert ntk.fanins[ntk.order[k]][i] in ntk.order;
  }

  lemma {:induction false} QuietAtFirst(ntk: Ntk, f: NodeFun, stim: Stimulus, k: nat)
    requires WellFormed(ntk) && k <= |ntk.order|
    ensures QuietSoFar(ntk, EvalFirst(ntk, f, Fed(ntk, f, stim, 0), k), k)
    decreases k
  {
    hide *;
    FormedParts(ntk);
    if k > 0 {
      QuietAtFirst(ntk, f, stim, k - 1);
      QuietNext(ntk, f, Fed(ntk, f, stim, 0), k - 1);
    } else {
      QuietAtStart(ntk, f, stim);
    }
  }

  lemma QuietNext(ntk: Ntk, f: NodeFun, q: seq<Info>, k: nat)
    requires WellFormed(ntk) && |q| == |ntk.kind| && k < |ntk.order| && QuietSoFar(ntk, EvalFirst(ntk, f, q, k), k)
    ensures QuietSoFar(ntk, EvalFirst(ntk, f, q, k + 1), k + 1)
  {
    hide *;
    FormedParts(ntk);
    EvalFirstNext(ntk, f, q, k + 1);
    QuietStep(ntk, f, EvalFirst(ntk, f, q, k), k);
  }

  lemma QuietAtStart(ntk: Ntk, f: NodeFun, stim: Stimulus)
    requires Shaped(ntk)
    ensures QuietSoFar(ntk, EvalFirst(ntk, f, Fed(ntk, f, stim, 0), 0), 0)
  {
    hide Quiet;
  }

  /** A quiet object that ought to be one stays zero in the first cycle. */
  lemma QuietBreaks(ntk: Ntk, f: NodeFun, stim: Stimulus, n: nat)
    requires WellFormed(ntk) && n in Quiet(ntk, |ntk.order|) && n < |ntk.kind| && Out(ntk, f, Lows(ntk), n)
    ensures !Consistent(ntk, f, V(ntk, f, stim, 0))
  {
    hide Distinct, RowsApart, NoChain, Quiet, Out, EvalFirst;
    QuietAtFirst(ntk, f, stim, |ntk.order|);
    assert ntk.order[..|ntk.order|] == ntk.order;
    QuietIsOrdered(ntk, |ntk.order|);
    var k :| 0 <= k < |ntk.order| && ntk.order[k] == n;
    QuietExactly(ntk, k);
    var v := V(ntk, f, stim, 0);
    forall i | 0 <= i < |ntk.fanins[n]| ensures v[ntk.fanins[n][i]] == Lows(ntk)[ntk.fanins[n][i]] {
      QuietKnown(ntk, k, i);
    }
    OutSame(ntk, f, v, Lows(ntk), n);
  }

  /** The simulator keeps every logic value right in every cycle of every run exactly when logic that
      depends on no input and no latch computes zero. */
  lemma RefinesExactly(ntk: Ntk, f: NodeFun)
    requires WellFormed(ntk)
    ensures QuietLow(ntk, f) <==> forall stim: Stimulus, t: nat :: Consistent(ntk, f, V(ntk, f, stim, t))
  {
    hide Ordered, RowsApart, NoChain, Quiet, Out, V, Faithful, Consistent;
    if QuietLow(ntk, f) {
      forall stim: Stimulus, t: nat ensures Consistent(ntk, f, V(ntk, f, stim, t)) {
        RunIsFaithful(ntk, f, stim, t);
        FaithfulParts(ntk, f, stim, t);
      }
    } else {
      var n: nat :| n in Quiet(ntk, |ntk.order|) && n < |ntk.kind| && Out(ntk, f, Lows(ntk), n);
      var stim: Stimulus := (t, i) => false;
      QuietBreaks(ntk, f, stim, n);
    }
  }

  /** A constant-one node with no fanins is the simplest failure. */
  lemma ConstantOneStaysZero(f: NodeFun, stim: Stimulus)
    requires f(0, [])
    ensures var ntk := Ntk([Node], [[]], [0], []);
      WellFormed(ntk) && !V(ntk, f, stim, 0)[0] && Reference(ntk, f, stim, 0)[0]
  {
    hide WellFormed, Quiet, EvalFirst, Reference;
    var ntk := Ntk([Node], [[]], [0], []);
    OneNodeIsQuiet();
    QuietAtFirst(ntk, f, stim, 1);
    assert ntk.order[..1] == [0];
    OneNodeReference(f, stim);
  }

  lemma OneNodeIsQuiet()
    ensures var ntk := Ntk([Node], [[]], [0], []); WellFormed(ntk) && 0 in Quiet(ntk, 1)
  {
    var ntk := Ntk([Node], [[]], [0], []);
    assert Quiet(ntk, 0) == {};
  }

  lemma OneNodeReference(f: NodeFun, stim: Stimulus)
    requires f(0, [])
    ensures Reference(Ntk([Node], [[]], [0], []), f, stim, 0)[0]
  {
    var ntk := Ntk([Node], [[]], [0], []);
    var base := Base(ntk, stim, Lows(ntk), 0);
    assert Full(ntk, f, base, 0) == base;
    assert At(base, ntk.fanins[0]) == [];
  }

  /** At the end of a run of any length a logic object's counters are those of its history, so
      num_toggles <= 2 * min(ones, zeros) and the final assertions hold. */
  lemma LogicCountersBounded(ntk: Ntk, f: NodeFun, stim: Stimulus, maxCycles: nat, k: nat)
    requires WellFormed(ntk) && QuietLow(ntk, f) && maxCycles > 0 && k < |ntk.order|
    ensures ntk.order[k] < |ntk.kind|
    ensures var o := Before(ntk, f, stim, maxCycles)[ntk.order[k]];
      && o.ones == Ones(Column(ntk, f, stim, maxCycles - 1, ntk.order[k]))
      && o.toggles == Toggles(Column(ntk, f, stim, maxCycles - 1, ntk.order[k]))
      && o.toggles <= 2 * o.ones && o.toggles <= 2 * (maxCycles - o.ones)
      && AssertionsHold(o.ones, o.toggles, maxCycles)
  {
    hide Shaped, Before, Column, QuietLow, WellFormed, AssertionsHold;
    FormedParts(ntk);
    LogicCounters(ntk, f, stim, maxCycles, k);
    var c := Column(ntk, f, stim, maxCycles - 1, ntk.order[k]);
    TogglesAreBounded(c);
    Covered(c);
    LogicAssertionsHold(c);
  }

  lemma LogicCounters(ntk: Ntk, f: NodeFun, stim: Stimulus, maxCycles: nat, k: nat)
    requires WellFormed(ntk) && QuietLow(ntk, f) && maxCycles > 0 && k < |ntk.order|
    ensures ntk.order[k] < |ntk.kind|
    ensures var o := Before(ntk, f, stim, maxCycles)[ntk.order[k]];
      o.ones == Ones(Column(ntk, f, stim, maxCycles - 1, ntk.order[k]))
      && o.toggles == Toggles(Column(ntk, f, stim, maxCycles - 1, ntk.order[k]))
  {
    hide *;
    FormedParts(ntk);
    RunIsFaithful(ntk, f, stim, maxCycles - 1);
    LogicOkAt(ntk, f, stim, maxCycles - 1, k);
    Carried(ntk, f, stim, maxCycles, ntk.order[k]);
    OkCounters(ntk, f, stim, maxCycles - 1, ntk.order[k]);
  }

  lemma OkCounters(ntk: Ntk, f: NodeFun, stim: Stimulus, t: nat, n: nat)
    requires Shaped(ntk) && n < |ntk.kind| && LogicOk(ntk, f, stim, t, n)
    ensures var o := Frame(ntk, f, stim, t)[n];
      o.ones == Ones(Column(ntk, f, stim, t, n)) && o.toggles == Toggles(Column(ntk, f, stim, t, n))
  {
    hide Frame, Column, Ones, Toggles, Out, Shaped;
  }

  lemma LogicOkAt(ntk: Ntk, f: NodeFun, stim: Stimulus, t: nat, k: nat)
    requires Shaped(ntk) && Faithful(ntk, f, stim, t) && k < |ntk.order|
    ensures LogicOk(ntk, f, stim, t, ntk.order[k])
  {
    hide LogicOk, InputOk, RowHolds, StatusOk;
  }

  // ----- primary inputs, where the final assertions can fail

  /** The first t bits an input gets. */
  function Stream(stim: Stimulus, n: nat, t: nat): (s: seq<bool>)
    ensures |s| == t && forall i :: 0 <= i < t ==> s[i] == stim(i, n)
  {
    seq(t, i requires 0 <= i < t => stim(i, n))
  }

  /** Evaluation leaves inputs alone, whatever the logic does. */
  lemma {:induction false} EvalKeepsInput(ntk: Ntk, f: NodeFun, s: seq<Info>, k: nat, n: nat)
    requires Shaped(ntk) && |s| == |ntk.kind| && k <= |ntk.order| && n < |ntk.kind| && ntk.kind[n] == Pi
    ensures EvalFirst(ntk, f, s, k)[n] == s[n]
  {
    hide EvalNext, FaninStatus, Out;
    if k > 0 {
      EvalKeepsInput(ntk, f, s, k - 1, n);
    }
  }

  lemma FrameKeepsInput(ntk: Ntk, f: NodeFun, stim: Stimulus, t: nat, n: nat)
    requires Shaped(ntk) && n < |ntk.kind| && ntk.kind[n] == Pi
    ensures Frame(ntk, f, stim, t)[n] == Fed(ntk, f, stim, t)[n]
  {
    hide EvalFirst;
    EvalKeepsInput(ntk, f, Fed(ntk, f, stim, t), |ntk.order|, n);
  }

  lemma {:induction false} InputRun(ntk: Ntk, f: NodeFun, stim: Stimulus, t: nat, n: nat)
    requires WellFormed(ntk) && n < |ntk.kind| && ntk.kind[n] == Pi
    ensures InputOk(ntk, f, stim, t, n) && StatusOk(ntk, f, stim, t, n)
    ensures Column(ntk, f, stim, t, n) == Stream(stim, n, t + 1)
    decreases t
  {
    hide Distinct, RowsApart, NoChain, Ordered, Frame, Fed, InputOk, StatusOk, Before;
    if t > 0 {
      InputRun(ntk, f, stim, t - 1, n);
    }
    FrameKeepsInput(ntk, f, stim, t, n);
    InputNext(ntk, f, stim, t, n);
    InputValue(ntk, f, stim, t, n);
    assert Stream(stim, n, t + 1) == (if t == 0 then [] else Stream(stim, n, t)) + [stim(t, n)];
  }

  lemma InputValue(ntk: Ntk, f: NodeFun, stim: Stimulus, t: nat, n: nat)
    requires Shaped(ntk) && n < |ntk.kind| && InputOk(ntk, f, stim, t, n)
    ensures V(ntk, f, stim, t)[n] == stim(t, n)
    ensures var o := Frame(ntk, f, stim, t)[n];
      o.ones == Ones(Column(ntk, f, stim, t, n)) && o.toggles == PiToggles(Column(ntk, f, stim, t, n))
  {
    hide Frame, Column, Ones, PiToggles;
  }

  /** At the end of a run of any length an input's record counts its stream, the first one as a toggle,
      and the final assertions on it hold unless the stream starts and ends with one, never holds zero
      for two cycles and is shorter than 1 / EPSILON. */
  lemma InputCountersExactly(ntk: Ntk, f: NodeFun, stim: Stimulus, maxCycles: nat, n: nat)
    requires WellFormed(ntk) && maxCycles > 0 && n < |ntk.kind| && ntk.kind[n] == Pi
    ensures var o := Before(ntk, f, stim, maxCycles)[n];
      && o.ones == Ones(Stream(stim, n, maxCycles)) && o.toggles == PiToggles(Stream(stim, n, maxCycles))
      && (AssertionsHold(o.ones, o.toggles, maxCycles) <==>
          !(stim(0, n) && stim(maxCycles - 1, n)
            && (forall t :: 0 <= t < maxCycles - 1 ==> stim(t, n) || stim(t + 1, n))
            && maxCycles < 100000))
  {
    hide Shaped, Before, Column, WellFormed, AssertionsHold, Ones, PiToggles, InputOk, StatusOk, Frame;
    FormedParts(ntk);
    InputRun(ntk, f, stim, maxCycles - 1, n);
    InputValue(ntk, f, stim, maxCycles - 1, n);
    Carried(ntk, f, stim, maxCycles, n);
    StreamAssertions(stim, n, maxCycles);
  }

  lemma StreamAssertions(stim: Stimulus, n: nat, cycles: nat)
    requires cycles > 0
    ensures var s := Stream(stim, n, cycles);
      AssertionsHold(Ones(s), PiToggles(s), cycles) <==>
        !(stim(0, n) && stim(cycles - 1, n) && (forall t :: 0 <= t < cycles - 1 ==> stim(t, n) || stim(t + 1, n))
          && cycles < 100000)
  {
    hide AssertionsHold, Ones, PiToggles, Stream;
    var s := Stream(stim, n, cycles);
    PiAssertionsExactly(s);
    assert (forall t :: 0 <= t < cycles - 1 ==> stim(t, n) || stim(t + 1, n)) <==>
      (forall i :: 0 <= i < |s| - 1 ==> s[i] || s[i + 1]) by {
      assert forall i :: 0 <= i < |s| ==> s[i] == stim(i, n);
    }
  }
}
