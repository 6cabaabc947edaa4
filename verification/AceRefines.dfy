/** Event-driven simulation against full evaluation: the values, statuses and counters of every cycle. */
module AceRefines {
  import opened Seqs
  import opened AceSim
  import opened AceCounts

  /** The evaluation order is a topological order of logic objects. */
  ghost predicate Ordered(ntk: Ntk)
    requires Shaped(ntk)
  {
    && Distinct(ntk.order)
    && (forall k :: 0 <= k < |ntk.order| ==> Logic(ntk, ntk.order[k]))
    && (forall k, i :: 0 <= k < |ntk.order| && 0 <= i < |ntk.fanins[ntk.order[k]]| ==>
          KnownBefore(ntk, ntk.fanins[ntk.order[k]][i], k))
  }

  predicate Logic(ntk: Ntk, n: nat) {
    n < |ntk.kind| && (ntk.kind[n] == Node || ntk.kind[n] == Po)
  }

  predicate Given(ntk: Ntk, n: nat) {
    n < |ntk.kind| && (ntk.kind[n] == Pi || ntk.kind[n] == Bo)
  }

  predicate KnownBefore(ntk: Ntk, n: nat, k: nat)
    requires k <= |ntk.order|
  {
    Given(ntk, n) || n in ntk.order[..k]
  }

  // ----- the latches

  /** Terminals of different latches are different objects. */
  ghost predicate RowsApart(ntk: Ntk) {
    forall i, j :: 0 <= i < j < |ntk.latches| ==>
      ntk.latches[i].bi != ntk.latches[j].bi && ntk.latches[i].latch != ntk.latches[j].latch
        && ntk.latches[i].bo != ntk.latches[j].bo
  }

  /** A latch fed by an earlier latch of the list that does not feed itself. */
  predicate ChainAt(ntk: Ntk, j: nat, i: nat)
    requires i < |ntk.latches| && j < |ntk.latches|
  {
    j < i && ntk.latches[i].feed == ntk.latches[j].bo && ntk.latches[j].feed != ntk.latches[j].bo
  }

  ghost predicate NoChain(ntk: Ntk, k: nat)
    requires k <= |ntk.latches|
  {
    forall i: nat, j: nat :: i < k && j < k ==> !ChainAt(ntk, j, i)
  }

  /** All of the first k latches at once: each takes over what its feeding object held before. */
  ghost predicate Together(ntk: Ntk, s: seq<Info>, r: seq<Info>, k: nat)
    requires Shaped(ntk) && |s| == |r| == |ntk.kind| && k <= |ntk.latches|
  {
    && (forall i {:trigger ntk.latches[i]} :: 0 <= i < k ==>
      RowOk(ntk, ntk.latches[i])
      && r[ntk.latches[i].bi] == r[ntk.latches[i].latch] == r[ntk.latches[i].bo] == s[ntk.latches[i].feed])
    && (forall n: nat {:trigger r[n]} ::
          n < |s| && (forall i {:trigger ntk.latches[i]} :: 0 <= i < k ==>
            n != ntk.latches[i].bi && n != ntk.latches[i].latch && n != ntk.latches[i].bo)
          ==> r[n] == s[n])
  }

  /** The feeding object of row k still holds its old record, unless an earlier latch chains into it. */
  lemma FeedKept(ntk: Ntk, s: seq<Info>, r: seq<Info>, k: nat)
    requires Shaped(ntk) && RowsApart(ntk) && |s| == |r| == |ntk.kind| && k < |ntk.latches| && Together(ntk, s, r, k)
    requires forall j: nat :: j < k ==> !ChainAt(ntk, j, k)
    ensures RowOk(ntk, ntk.latches[k]) && r[ntk.latches[k].feed] == s[ntk.latches[k].feed]
  {
    var feed := ntk.latches[k].feed;
    assert RowOk(ntk, ntk.latches[k]);
    if i: nat :| i < k && feed == ntk.latches[i].bo {
      assert !ChainAt(ntk, i, k);
      assert r[ntk.latches[i].bo] == s[ntk.latches[i].feed];
    } else {
      forall i | 0 <= i < k
        ensures feed != ntk.latches[i].bi && feed != ntk.latches[i].latch && feed != ntk.latches[i].bo
      {
        assert RowOk(ntk, ntk.latches[i]);
      }
    }
  }

  lemma TogetherNext(ntk: Ntk, s: seq<Info>, r: seq<Info>, k: nat, r': seq<Info>)
    requires Shaped(ntk) && RowsApart(ntk) && |s| == |r| == |ntk.kind| && k < |ntk.latches| && Together(ntk, s, r, k)
    requires RowOk(ntk, ntk.latches[k]) && r[ntk.latches[k].feed] == s[ntk.latches[k].feed]
    requires var row := ntk.latches[k]; r' == r[row.bi := r[row.feed]][row.latch := r[row.feed]][row.bo := r[row.feed]]
    ensures Together(ntk, s, r', k + 1)
  {
    var row := ntk.latches[k];
    forall i | 0 <= i < k + 1
      ensures RowOk(ntk, ntk.latches[i])
        && r'[ntk.latches[i].bi] == r'[ntk.latches[i].latch] == r'[ntk.latches[i].bo] == s[ntk.latches[i].feed]
    {
      assert RowOk(ntk, ntk.latches[i]);
    }
    forall n: nat | n < |s|
      && (forall i {:trigger ntk.latches[i]} :: 0 <= i < k + 1 ==>
      n != ntk.latches[i].bi && n != ntk.latches[i].latch && n != ntk.latches[i].bo)
      ensures r'[n] == s[n]
    {
      assert n != row.bi && n != row.latch && n != row.bo;
    }
  }

  lemma {:induction false} LatchesTogether(ntk: Ntk, s: seq<Info>, k: nat)
    requires Shaped(ntk) && RowsApart(ntk) && |s| == |ntk.kind| && k <= |ntk.latches| && NoChain(ntk, k)
    ensures Together(ntk, s, LatchFirst(ntk, s, k), k)
  {
    hide Together;
    if k > 0 {
      LatchesTogether(ntk, s, k - 1);
      FeedKept(ntk, s, LatchFirst(ntk, s, k - 1), k - 1);
      TogetherNext(ntk, s, LatchFirst(ntk, s, k - 1), k - 1, LatchFirst(ntk, s, k));
    } else {
      NoneTogether(ntk, s);
    }
  }

  lemma NoneTogether(ntk: Ntk, s: seq<Info>)
    requires Shaped(ntk) && |s| == |ntk.kind|
    ensures Together(ntk, s, LatchFirst(ntk, s, 0), 0)
  {
  }

  /** Later rows leave an earlier latch's output terminal alone. */
  lemma {:induction false} OutputStays(ntk: Ntk, s: seq<Info>, i: nat, k: nat)
    requires Shaped(ntk) && RowsApart(ntk) && |s| == |ntk.kind| && i < k <= |ntk.latches|
    ensures RowOk(ntk, ntk.latches[i])
      && LatchFirst(ntk, s, k)[ntk.latches[i].bo] == LatchFirst(ntk, s, i + 1)[ntk.latches[i].bo]
    decreases k
  {
    assert RowOk(ntk, ntk.latches[i]);
    if k > i + 1 {
      assert RowOk(ntk, ntk.latches[k - 1]);
      OutputStays(ntk, s, i, k - 1);
    }
  }

  /** With a chain into row i and none before it there is a state that the loop updates wrongly. */
  lemma ChainBreaks(ntk: Ntk, j: nat, i: nat) returns (s: seq<Info>)
    requires Shaped(ntk) && RowsApart(ntk) && i < |ntk.latches| && j < |ntk.latches| && ChainAt(ntk, j, i)
      && NoChain(ntk, i)
    ensures |s| == |ntk.kind| && !Together(ntk, s, LatchFirst(ntk, s, |ntk.latches|), |ntk.latches|)
  {
    hide Together, LatchFirst, NoChain, RowsApart;
    var low, high := Info(false, New, 0, 0), Info(true, New, 0, 0);
    assert RowOk(ntk, ntk.latches[j]) && RowOk(ntk, ntk.latches[i]);
    s := seq(|ntk.kind|, n => if n == ntk.latches[j].feed then high else low);
    LatchesTogether(ntk, s, i);
    RowTookOver(ntk, s, LatchFirst(ntk, s, i), i, j);
    LastRow(ntk, s, i);
    OutputStays(ntk, s, i, |ntk.latches|);
    NotTogether(ntk, s, LatchFirst(ntk, s, |ntk.latches|), i);
  }

  lemma RowTookOver(ntk: Ntk, s: seq<Info>, r: seq<Info>, k: nat, j: nat)
    requires Shaped(ntk) && |s| == |r| == |ntk.kind| && j < k <= |ntk.latches| && Together(ntk, s, r, k)
    ensures RowOk(ntk, ntk.latches[j]) && r[ntk.latches[j].bo] == s[ntk.latches[j].feed]
  {
  }

  lemma LastRow(ntk: Ntk, s: seq<Info>, i: nat)
    requires Shaped(ntk) && |s| == |ntk.kind| && i < |ntk.latches|
    ensures RowOk(ntk, ntk.latches[i])
    ensures LatchFirst(ntk, s, i + 1)[ntk.latches[i].bo] == LatchFirst(ntk, s, i)[ntk.latches[i].feed]
  {
    assert RowOk(ntk, ntk.latches[i]);
  }

  lemma NotTogether(ntk: Ntk, s: seq<Info>, r: seq<Info>, i: nat)
    requires Shaped(ntk) && |s| == |r| == |ntk.kind| && i < |ntk.latches| && RowOk(ntk, ntk.latches[i])
    requires r[ntk.latches[i].bo] != s[ntk.latches[i].feed]
    ensures !Together(ntk, s, r, |ntk.latches|)
  {
  }

  lemma {:induction false} FirstChain(ntk: Ntk, k: nat) returns (j: nat, i: nat)
    requires k <= |ntk.latches| && !NoChain(ntk, k)
    ensures i < |ntk.latches| && j < |ntk.latches| && ChainAt(ntk, j, i) && NoChain(ntk, i)
  {
    if NoChain(ntk, k - 1) {
      i := k - 1;
      var a: nat, b: nat :| a < k && b < k && ChainAt(ntk, b, a);
      assert a == i;
      j := b;
    } else {
      j, i := FirstChain(ntk, k - 1);
    }
  }

  /** update_FFs works like a simultaneous clock edge on every state exactly when no latch is fed by
      an earlier one of the list, self-loops aside. */
  lemma LatchesTogetherExactly(ntk: Ntk)
    requires Shaped(ntk) && RowsApart(ntk)
    ensures NoChain(ntk, |ntk.latches|) <==>
      forall s: seq<Info> :: |s| == |ntk.kind| ==> Together(ntk, s, LatchFirst(ntk, s, |ntk.latches|), |ntk.latches|)
  {
    hide Together;
    if NoChain(ntk, |ntk.latches|) {
      forall s: seq<Info> | |s| == |ntk.kind| ensures Together(ntk, s, LatchFirst(ntk, s, |ntk.latches|), |ntk.latches|)
      {
        LatchesTogether(ntk, s, |ntk.latches|);
      }
    } else {
      var j, i := FirstChain(ntk, |ntk.latches|);
      var s := ChainBreaks(ntk, j, i);
    }
  }

  // ----- objects that never see a change

  /** Logic all of whose fanins are such logic: constants and what is computed from constants only. */
  ghost function Quiet(ntk: Ntk, k: nat): set<nat>
    requires Shaped(ntk) && k <= |ntk.order|
  {
    if k == 0 then {}
    else
      var q := Quiet(ntk, k - 1);
      var n := ntk.order[k - 1];
      if forall i :: 0 <= i < |ntk.fanins[n]| ==> ntk.fanins[n][i] in q then q + {n} else q
  }

  lemma {:induction false} QuietIsOrdered(ntk: Ntk, k: nat)
    requires Shaped(ntk) && k <= |ntk.order|
    ensures forall n :: n in Quiet(ntk, k) ==> n in ntk.order[..k]
  {
    if k > 0 {
      QuietIsOrdered(ntk, k - 1);
      assert ntk.order[..k] == ntk.order[..k - 1] + [ntk.order[k - 1]];
    }
  }

  lemma {:induction false} QuietGrows(ntk: Ntk, k: nat, m: nat)
    requires Shaped(ntk) && Ordered(ntk) && k <= m <= |ntk.order|
    ensures Quiet(ntk, k) <= Quiet(ntk, m)
    ensures forall n :: n in Quiet(ntk, m) && n in ntk.order[..k] ==> n in Quiet(ntk, k)
    decreases m
  {
    if k < m {
      QuietGrows(ntk, k, m - 1);
      assert ntk.order[m - 1] !in ntk.order[..k];
    }
  }

  /** Object k of the order is quiet exactly when all its fanins are. */
  lemma QuietExactly(ntk: Ntk, k: nat)
    requires Shaped(ntk) && Ordered(ntk) && k < |ntk.order|
    ensures ntk.order[k] in Quiet(ntk, |ntk.order|) <==>
      forall i :: 0 <= i < |ntk.fanins[ntk.order[k]]| ==> ntk.fanins[ntk.order[k]][i] in Quiet(ntk, |ntk.order|)
  {
    hide Distinct;
    var n := ntk.order[k];
    QuietGrows(ntk, k, |ntk.order|);
    QuietGrows(ntk, k + 1, |ntk.order|);
    QuietIsOrdered(ntk, k);
    assert n !in ntk.order[..k] by { NotBefore(ntk.order, k); }
    assert n in ntk.order[..k + 1];
    forall i | 0 <= i < |ntk.fanins[n]|
      ensures ntk.fanins[n][i] in Quiet(ntk, k) <==> ntk.fanins[n][i] in Quiet(ntk, |ntk.order|)
    {
      assert KnownBefore(ntk, ntk.fanins[n][i], k);
      QuietIsOrdered(ntk, |ntk.order|);
      if Given(ntk, ntk.fanins[n][i]) && ntk.fanins[n][i] in ntk.order {
        assert false;
      }
    }
  }

  lemma NotBefore(s: seq<nat>, k: nat)
    requires Distinct(s) && k < |s|
    ensures s[k] !in s[..k]
  {
  }

  ghost function Lows(ntk: Ntk): (v: seq<bool>)
    ensures |v| == |ntk.kind| && forall i :: 0 <= i < |v| ==> !v[i]
  {
    seq(|ntk.kind|, i => false)
  }

  /** Quiet logic computes zero from zeros: what the code takes for granted when it never evaluates it. */
  ghost predicate QuietLow(ntk: Ntk, f: NodeFun)
    requires Shaped(ntk)
  {
    forall n: nat :: n in Quiet(ntk, |ntk.order|) && n < |ntk.kind| ==> !Out(ntk, f, Lows(ntk), n)
  }

  // ----- one evaluation

  /** Every logic object has the value of its function on the current fanin values. */
  ghost predicate Consistent(ntk: Ntk, f: NodeFun, v: seq<bool>)
    requires Shaped(ntk) && |v| == |ntk.kind|
  {
    forall k :: 0 <= k < |ntk.order| ==> v[ntk.order[k]] == Out(ntk, f, v, ntk.order[k])
  }

  ghost predicate Settled(o: Info) { o.status == New || o.status == Old }

  /** The state when evaluation starts: pv the values of the cycle before (zeros before the first),
      still the objects that may report no change. */
  ghost predicate Starts(ntk: Ntk, f: NodeFun, q: seq<Info>, pv: seq<bool>, still: set<nat>, first: bool)
    requires Shaped(ntk) && |q| == |pv| == |ntk.kind|
  {
    && (forall n: nat {:trigger q[n]} :: Given(ntk, n) ==>
      Settled(q[n]) && (q[n].status == Old ==> n in still && q[n].value == pv[n]))
    && (forall k {:trigger ntk.order[k]} :: 0 <= k < |ntk.order| ==>
          var n := ntk.order[k];
          q[n].value == pv[n] && (first <==> q[n].status == Undef) && (!first ==> Settled(q[n]) && n in still)
          && ((forall i :: 0 <= i < |ntk.fanins[n]| ==> ntk.fanins[n][i] in still) ==>
            n in still && Out(ntk, f, pv, n) == pv[n]))
  }

  /** What evaluation makes of one object, against its record and value before. */
  ghost predicate Done(ntk: Ntk, f: NodeFun, q: seq<Info>, r: seq<Info>, pv: seq<bool>, still: set<nat>, n: nat)
    requires Shaped(ntk) && |q| == |r| == |pv| == |ntk.kind| && n < |ntk.kind|
  {
    && Settled(r[n]) && (r[n].status == Old ==> n in still && r[n].value == pv[n])
    && r[n].value == Out(ntk, f, Values(r), n)
    && r[n].ones == q[n].ones + Bit(r[n].value)
    && r[n].toggles == q[n].toggles + Bit(q[n].status != Undef && r[n].value != pv[n])
  }

  lemma OutSame(ntk: Ntk, f: NodeFun, a: seq<bool>, b: seq<bool>, n: nat)
    requires Shaped(ntk) && |a| == |b| == |ntk.kind| && n < |ntk.kind|
    requires forall i :: 0 <= i < |ntk.fanins[n]| ==> a[ntk.fanins[n][i]] == b[ntk.fanins[n][i]]
    ensures Out(ntk, f, a, n) == Out(ntk, f, b, n)
  {
    assert At(a, ntk.fanins[n]) == At(b, ntk.fanins[n]);
  }

  ghost predicate Evaluating(ntk: Ntk, f: NodeFun, q: seq<Info>, r: seq<Info>, pv: seq<bool>, still: set<nat>, k: nat)
    requires Shaped(ntk) && |q| == |r| == |pv| == |ntk.kind| && k <= |ntk.order|
  {
    && (forall n: nat {:trigger r[n]} :: n < |ntk.kind| && n !in ntk.order[..k] ==> r[n] == q[n])
    && (forall j {:trigger ntk.order[j]} :: 0 <= j < k ==> Done(ntk, f, q, r, pv, still, ntk.order[j]))
  }

  /** The fanins of the next object are settled, and unchanged where they say so. */
  lemma FaninsKnown(ntk: Ntk, f: NodeFun, q: seq<Info>, r: seq<Info>, pv: seq<bool>, still: set<nat>, first: bool,
      k: nat, i: nat)
    requires Shaped(ntk) && Ordered(ntk) && |q| == |r| == |pv| == |ntk.kind| && k < |ntk.order|
    requires Starts(ntk, f, q, pv, still, first) && Evaluating(ntk, f, q, r, pv, still, k)
    requires i < |ntk.fanins[ntk.order[k]]|
    ensures var m := ntk.fanins[ntk.order[k]][i];
      m != ntk.order[k] && Settled(r[m]) && (r[m].status == Old ==> m in still && r[m].value == pv[m])
  {
    hide Distinct;
    var m := ntk.fanins[ntk.order[k]][i];
    assert KnownBefore(ntk, m, k);
    NotBefore(ntk.order, k);
    assert Logic(ntk, ntk.order[k]);
    if m in ntk.order[..k] {
      var j :| 0 <= j < k && ntk.order[j] == m;
      assert Done(ntk, f, q, r, pv, still, ntk.order[j]);
    } else {
      assert Given(ntk, m) && r[m] == q[m];
    }
  }

  lemma NotYetEvaluated(ntk: Ntk, f: NodeFun, q: seq<Info>, r: seq<Info>, pv: seq<bool>, still: set<nat>, k: nat)
    requires Shaped(ntk) && Ordered(ntk) && |q| == |r| == |pv| == |ntk.kind| && k < |ntk.order|
    requires Evaluating(ntk, f, q, r, pv, still, k)
    ensures r[ntk.order[k]] == q[ntk.order[k]]
  {
    hide Done;
    NotBefore(ntk.order, k);
  }

  lemma EvalOne(ntk: Ntk, f: NodeFun, q: seq<Info>, r: seq<Info>, pv: seq<bool>, still: set<nat>, first: bool, k: nat,
      r': seq<Info>)
    requires Shaped(ntk) && Ordered(ntk) && |q| == |r| == |pv| == |ntk.kind| && k < |ntk.order|
    requires Starts(ntk, f, q, pv, still, first) && Evaluating(ntk, f, q, r, pv, still, k)
    requires r' ==
      r[ntk.order[k] := EvalNext(r[ntk.order[k]], FaninStatus(r, ntk.fanins[ntk.order[k]]),
      Out(ntk, f, Values(r), ntk.order[k]))]
    ensures Done(ntk, f, q, r', pv, still, ntk.order[k])
  {
    hide Distinct, Ordered, Evaluating, Starts, Out;
    NotYetEvaluated(ntk, f, q, r, pv, still, k);
    var n := ntk.order[k];
    var fan := ntk.fanins[n];
    forall i | 0 <= i < |fan|
      ensures fan[i] != n && Settled(r[fan[i]])
        && (r[fan[i]].status == Old ==> fan[i] in still && r[fan[i]].value == pv[fan[i]])
    {
      FaninsKnown(ntk, f, q, r, pv, still, first, k, i);
    }
    var st := FaninStatus(r, fan);
    var v := Out(ntk, f, Values(r), n);
    assert st == New || st == Old;
    OutSame(ntk, f, Values(r), Values(r'), n);
    StartsAt(ntk, f, q, pv, still, first, k);
    if st == Old {
      forall i | 0 <= i < |fan| ensures fan[i] in still && Values(r)[fan[i]] == pv[fan[i]] {
        assert r[fan[i]].status == Old;
      }
      OutSame(ntk, f, Values(r), pv, n);
    }
  }

  lemma StartsAt(ntk: Ntk, f: NodeFun, q: seq<Info>, pv: seq<bool>, still: set<nat>, first: bool, k: nat)
    requires Shaped(ntk) && |q| == |pv| == |ntk.kind| && k < |ntk.order| && Starts(ntk, f, q, pv, still, first)
    ensures var n := ntk.order[k];
      q[n].value == pv[n] && (first <==> q[n].status == Undef) && (!first ==> Settled(q[n]) && n in still)
      && ((forall i :: 0 <= i < |ntk.fanins[n]| ==> ntk.fanins[n][i] in still) ==>
        n in still && Out(ntk, f, pv, n) == pv[n])
  {
    hide Out;
  }

  /** Evaluating one object disturbs none that was evaluated before it. */
  lemma DoneStays(ntk: Ntk, f: NodeFun, q: seq<Info>, r: seq<Info>, pv: seq<bool>, still: set<nat>, j: nat, k: nat,
      o: Info)
    requires Shaped(ntk) && Ordered(ntk) && |q| == |r| == |pv| == |ntk.kind| && j < k < |ntk.order|
    requires Done(ntk, f, q, r, pv, still, ntk.order[j])
    ensures Done(ntk, f, q, r[ntk.order[k] := o], pv, still, ntk.order[j])
  {
    hide Out, Distinct;
    var n := ntk.order[j];
    var r' := r[ntk.order[k] := o];
    assert n != ntk.order[k] by { NotBefore(ntk.order, k); assert ntk.order[..k][j] == n; }
    forall i | 0 <= i < |ntk.fanins[n]| ensures Values(r)[ntk.fanins[n][i]] == Values(r')[ntk.fanins[n][i]] {
      assert KnownBefore(ntk, ntk.fanins[n][i], j);
      NotBefore(ntk.order, k);
      assert Logic(ntk, ntk.order[k]);
      assert ntk.fanins[n][i] in ntk.order[..j] ==> ntk.fanins[n][i] in ntk.order[..k] by {
        assert ntk.order[..k] == ntk.order[..j] + ntk.order[j..k];
      }
    }
    OutSame(ntk, f, Values(r), Values(r'), n);
  }

  lemma {:induction false} EvaluationIsRight(ntk: Ntk, f: NodeFun, q: seq<Info>, pv: seq<bool>, still: set<nat>,
      first: bool, k: nat)
    requires Shaped(ntk) && Ordered(ntk) && |q| == |pv| == |ntk.kind| && k <= |ntk.order|
    requires Starts(ntk, f, q, pv, still, first)
    ensures Evaluating(ntk, f, q, EvalFirst(ntk, f, q, k), pv, still, k)
  {
    hide Done, Starts, FaninStatus, Out, Evaluating, EvalNext, EvalFirst, Distinct;
    if k > 0 {
      EvaluationIsRight(ntk, f, q, pv, still, first, k - 1);
      EvalFirstNext(ntk, f, q, k);
      EvaluatingNext(ntk, f, q, EvalFirst(ntk, f, q, k - 1), pv, still, first, k - 1, EvalFirst(ntk, f, q, k));
    } else {
      EvaluatingNone(ntk, f, q, pv, still);
    }
  }

  lemma EvalFirstNext(ntk: Ntk, f: NodeFun, q: seq<Info>, k: nat)
    requires Shaped(ntk) && Ordered(ntk) && |q| == |ntk.kind| && 0 < k <= |ntk.order|
    ensures var r, n := EvalFirst(ntk, f, q, k - 1), ntk.order[k - 1];
      EvalFirst(ntk, f, q, k) == r[n := EvalNext(r[n], FaninStatus(r, ntk.fanins[n]), Out(ntk, f, Values(r), n))]
  {
    hide EvalNext, FaninStatus, Out, Distinct;
    assert Logic(ntk, ntk.order[k - 1]);
  }

  lemma EvaluatingNone(ntk: Ntk, f: NodeFun, q: seq<Info>, pv: seq<bool>, still: set<nat>)
    requires Shaped(ntk) && |q| == |pv| == |ntk.kind|
    ensures EvalFirst(ntk, f, q, 0) == q && Evaluating(ntk, f, q, q, pv, still, 0)
  {
  }

  lemma EvaluatingNext(ntk: Ntk, f: NodeFun, q: seq<Info>, r: seq<Info>, pv: seq<bool>, still: set<nat>, first: bool,
      k: nat, r': seq<Info>)
    requires Shaped(ntk) && Ordered(ntk) && |q| == |r| == |pv| == |ntk.kind| && k < |ntk.order|
    requires Starts(ntk, f, q, pv, still, first) && Evaluating(ntk, f, q, r, pv, still, k)
    requires r' ==
      r[ntk.order[k] := EvalNext(r[ntk.order[k]], FaninStatus(r, ntk.fanins[ntk.order[k]]),
      Out(ntk, f, Values(r), ntk.order[k]))]
    ensures Evaluating(ntk, f, q, r', pv, still, k + 1)
  {
    hide Done, Starts, Ordered, FaninStatus, Out, EvalNext;
    var n := ntk.order[k];
    assert ntk.order[..k + 1] == ntk.order[..k] + [n];
    EvalOne(ntk, f, q, r, pv, still, first, k, r');
    forall j | 0 <= j < k + 1 ensures Done(ntk, f, q, r', pv, still, ntk.order[j]) {
      if j < k {
        DoneStays(ntk, f, q, r, pv, still, j, k, r'[n]);
      }
    }
  }
}
