/** What the path-weighted switching probability of ACE 2 (bdd.c) stands for: an expectation over all
    present assignments. */
module AceSwitch {
  import opened AceBdd

  /** What is known of the inputs on the path that the present assignment takes. */
  function NowCube(b: Bdd, a: seq<bool>, cube: seq<Literal>): (r: seq<Literal>)
    requires Below(b, |a|) && |cube| == |a|
    ensures |r| == |cube|
  {
    match b
    case Ite(i, t, e) =>
      if a[i] then NowCube(t, a, cube[i := WasOne]) else NowCube(e, a, cube[i := WasZero])
    case _ => cube
  }

  /** The probability that the diagram has the phase next, if it does not have it now. */
  ghost function Gain(next: Bdd, b: Bdd, fanins: seq<Fanin>, cube: seq<Literal>, phase: bool, a: seq<bool>): real
    requires |cube| == |fanins| == |a| && Below(next, |fanins|) && Below(b, |fanins|)
  {
    if Eval(b, a) != phase then CubeProb(Weights(fanins, NowCube(b, a, cube)), next, phase) else 0.0
  }

  function Statics(fanins: seq<Fanin>): (w: seq<real>)
    ensures |w| == |fanins| && forall i :: 0 <= i < |w| ==> w[i] == fanins[i].staticProb
  {
    seq(|fanins|, i requires 0 <= i < |fanins| => fanins[i].staticProb)
  }

  /** The sum, over all present assignments that extend a, of their probability times their gain. */
  ghost function TotalGain(next: Bdd, b: Bdd, fanins: seq<Fanin>, cube: seq<Literal>, phase: bool, a: seq<bool>): real
    requires |cube| == |fanins| && |a| <= |fanins| && Below(next, |fanins|) && Below(b, |fanins|)
    decreases |fanins| - |a|
  {
    if |a| == |fanins| then Mul(Product(Statics(fanins), a), Gain(next, b, fanins, cube, phase, a))
    else TotalGain(next, b, fanins, cube, phase, a + [true]) + TotalGain(next, b, fanins, cube, phase, a + [false])
  }

  /** The same sum with the probability of a divided out. */
  ghost function Expect(next: Bdd, b: Bdd, fanins: seq<Fanin>, cube: seq<Literal>, phase: bool, a: seq<bool>): real
    requires |cube| == |fanins| && |a| <= |fanins| && Below(next, |fanins|) && Below(b, |fanins|)
    decreases |fanins| - |a|
  {
    if |a| == |fanins| then Gain(next, b, fanins, cube, phase, a)
    else Mix(fanins[|a|].staticProb, Expect(next, b, fanins, cube, phase, a + [true]),
             Expect(next, b, fanins, cube, phase, a + [false]))
  }

  lemma {:induction false} TotalIsExpect(next: Bdd, b: Bdd, fanins: seq<Fanin>, cube: seq<Literal>, phase: bool,
      a: seq<bool>)
    requires |cube| == |fanins| && |a| <= |fanins| && Below(next, |fanins|) && Below(b, |fanins|)
    ensures TotalGain(next, b, fanins, cube, phase, a)
      == Mul(Product(Statics(fanins), a), Expect(next, b, fanins, cube, phase, a))
    decreases |fanins| - |a|
  {
    hide Mul, Mix, Gain, Product;
    if |a| < |fanins| {
      TotalIsExpect(next, b, fanins, cube, phase, a + [true]);
      TotalIsExpect(next, b, fanins, cube, phase, a + [false]);
      ProductNext(Statics(fanins), a);
      Distribute(Product(Statics(fanins), a), fanins[|a|].staticProb, Expect(next, b, fanins, cube, phase, a + [true]),
                 Expect(next, b, fanins, cube, phase, a + [false]));
    }
  }

  lemma {:induction false} NowCubeIgnores(b: Bdd, a: seq<bool>, c: seq<bool>, cube: seq<Literal>, i: nat)
    requires |a| == |c| == |cube| && Below(b, |a|) && Free(b, i) && forall k :: 0 <= k < |a| && k != i ==> a[k] == c[k]
    ensures NowCube(b, a, cube) == NowCube(b, c, cube)
  {
    if b.Ite? {
      NowCubeIgnores(b.then_, a, c, cube[b.index := WasOne], i);
      NowCubeIgnores(b.else_, a, c, cube[b.index := WasZero], i);
    }
  }

  lemma {:induction false} ExpectIgnores(next: Bdd, b: Bdd, fanins: seq<Fanin>, cube: seq<Literal>, phase: bool,
      a: seq<bool>, c: seq<bool>, i: nat)
    requires |cube| == |fanins| && |a| == |c| <= |fanins| && Below(next, |fanins|) && Below(b, |fanins|)
    requires Free(b, i) && forall k :: 0 <= k < |a| && k != i ==> a[k] == c[k]
    ensures Expect(next, b, fanins, cube, phase, a) == Expect(next, b, fanins, cube, phase, c)
    decreases |fanins| - |a|
  {
    hide Mix;
    if |a| == |fanins| {
      FreeIgnores(b, a, c, i);
      NowCubeIgnores(b, a, c, cube, i);
    } else {
      ExpectIgnores(next, b, fanins, cube, phase, a + [true], c + [true], i);
      ExpectIgnores(next, b, fanins, cube, phase, a + [false], c + [false], i);
    }
  }

  /** Once the bit of the root is fixed, the path goes on in one of its branches. */
  lemma {:induction false} ExpectBranch(next: Bdd, b: Bdd, fanins: seq<Fanin>, cube: seq<Literal>, phase: bool,
      a: seq<bool>)
    requires |cube| == |fanins| && |a| <= |fanins| && Below(next, |fanins|) && Below(b, |fanins|) && b.Ite?
      && b.index < |a|
    ensures Expect(next, b, fanins, cube, phase, a) ==
      if a[b.index] then Expect(next, b.then_, fanins, cube[b.index := WasOne], phase, a)
      else Expect(next, b.else_, fanins, cube[b.index := WasZero], phase, a)
    decreases |fanins| - |a|
  {
    hide Mix, CubeProb;
    if |a| < |fanins| {
      ExpectBranch(next, b, fanins, cube, phase, a + [true]);
      ExpectBranch(next, b, fanins, cube, phase, a + [false]);
    }
  }

  /** Before it is fixed, the branches mix with its static probability. */
  lemma {:induction false} ExpectMixes(next: Bdd, b: Bdd, fanins: seq<Fanin>, cube: seq<Literal>, phase: bool,
      a: seq<bool>)
    requires |cube| == |fanins| && |a| <= |fanins| && Below(next, |fanins|) && Below(b, |fanins|) && b.Ite?
      && |a| <= b.index
    requires Free(b.then_, b.index) && Free(b.else_, b.index)
    ensures Expect(next, b, fanins, cube, phase, a)
      == Mix(fanins[b.index].staticProb, Expect(next, b.then_, fanins, cube[b.index := WasOne], phase, a),
             Expect(next, b.else_, fanins, cube[b.index := WasZero], phase, a))
    decreases |fanins| - |a|
  {
    hide Mix, Free, Gain;
    var s, one, zero := fanins[b.index].staticProb, cube[b.index := WasOne], cube[b.index := WasZero];
    if |a| == b.index {
      ExpectBranch(next, b, fanins, cube, phase, a + [true]);
      ExpectBranch(next, b, fanins, cube, phase, a + [false]);
      ExpectIgnores(next, b.then_, fanins, one, phase, a + [true], a + [false], b.index);
      ExpectIgnores(next, b.else_, fanins, zero, phase, a + [true], a + [false], b.index);
      Absorb(s, Expect(next, b.then_, fanins, one, phase, a + [true]));
      Absorb(s, Expect(next, b.else_, fanins, zero, phase, a + [true]));
    } else {
      ExpectMixes(next, b, fanins, cube, phase, a + [true]);
      ExpectMixes(next, b, fanins, cube, phase, a + [false]);
      Exchange(fanins[|a|].staticProb, s, Expect(next, b.then_, fanins, one, phase, a + [true]),
               Expect(next, b.else_, fanins, zero, phase, a + [true]),
                 Expect(next, b.then_, fanins, one, phase, a + [false]),
               Expect(next, b.else_, fanins, zero, phase, a + [false]));
    }
  }

  lemma {:induction false} ConstantExpect(next: Bdd, b: Bdd, fanins: seq<Fanin>, cube: seq<Literal>, phase: bool,
      a: seq<bool>)
    requires |cube| == |fanins| && |a| <= |fanins| && Below(next, |fanins|) && !b.Ite?
    ensures Expect(next, b, fanins, cube, phase, a)
      == if b.One? != phase then CubeProb(Weights(fanins, cube), next, phase) else 0.0
    decreases |fanins| - |a|
  {
    hide Mix, CubeProb, Weights;
    if |a| < |fanins| {
      ConstantExpect(next, b, fanins, cube, phase, a + [true]);
      ConstantExpect(next, b, fanins, cube, phase, a + [false]);
      Absorb(fanins[|a|].staticProb, if b.One? != phase then CubeProb(Weights(fanins, cube), next, phase) else 0.0);
    }
  }

  lemma {:induction false} PathIsExpect(next: Bdd, b: Bdd, fanins: seq<Fanin>, cube: seq<Literal>, p1: real,
      phase: bool)
    requires |cube| == |fanins| && Below(next, |fanins|) && Below(b, |fanins|) && ReadOnce(b)
    ensures PathSum(next, b, fanins, cube, p1, phase) == Mul(p1, Expect(next, b, fanins, cube, phase, []))
    decreases b
  {
    hide Mul, Mix, CubeProb, Weights, Expect, Free;
    match b {
      case Ite(i, t, e) =>
        var s := fanins[i].staticProb;
        PathIsExpect(next, t, fanins, cube[i := WasOne], Mul(p1, s), phase);
        PathIsExpect(next, e, fanins, cube[i := WasZero], Mul(p1, 1.0 - s), phase);
        ExpectMixes(next, b, fanins, cube, phase, []);
        Distribute(p1, s, Expect(next, t, fanins, cube[i := WasOne], phase, []),
                   Expect(next, e, fanins, cube[i := WasZero], phase, []));
      case _ =>
        ConstantExpect(next, b, fanins, cube, phase, []);
        Commutes(p1, CubeProb(Weights(fanins, cube), next, phase));
        Units(p1);
    }
  }

  lemma Commutes(x: real, y: real)
    ensures Mul(x, y) == Mul(y, x)
  {
  }

  /** MAIN RESULT: counted once, the path probabilities give the probability of a switch into the phase:
      the sum over all 2^n present assignments without the phase of their probability times that of the
      phase next, given what the diagram has read of the assignment. */
  lemma PathSumIsTotal(next: Bdd, b: Bdd, fanins: seq<Fanin>, cube: seq<Literal>, phase: bool)
    requires |cube| == |fanins| && Below(next, |fanins|) && Below(b, |fanins|) && ReadOnce(b)
    ensures PathSum(next, b, fanins, cube, 1.0, phase) == TotalGain(next, b, fanins, cube, phase, [])
  {
    hide Mul, PathSum, TotalGain, Expect, Product;
    PathIsExpect(next, b, fanins, cube, 1.0, phase);
    TotalIsExpect(next, b, fanins, cube, phase, []);
    EmptyProduct(Statics(fanins));
  }
}
