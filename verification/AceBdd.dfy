/** Switching probabilities over a decision diagram in ACE 2 (bdd.c), with exact arithmetic. */
module AceBdd {

  /** A decision diagram without complemented edges; equal diagrams are one node. */
  datatype Bdd = Zero | One | Ite(index: nat, then_: Bdd, else_: Bdd)

  /** What a cube says of one literal: it was zero, it was one, or nothing is known. */
  datatype Literal = WasZero | WasOne | Unknown

  datatype Fanin = Fanin(staticProb: real, prob0to1: real, prob1to0: real)

  function Mul(x: real, y: real): real { x * y }

  /** x of p and the rest of q. */
  function Mix(x: real, p: real, q: real): real { x * p + (1.0 - x) * q }

  predicate UnitReal(x: real) { 0.0 <= x <= 1.0 }

  predicate FaninOk(x: Fanin) { UnitReal(x.staticProb) && UnitReal(x.prob0to1) && UnitReal(x.prob1to0) }

  /** The probability that a fanin is one next, given its literal. */
  function Weight(x: Fanin, l: Literal): (w: real)
    ensures FaninOk(x) ==> UnitReal(w)
  {
    match l
    case WasZero => x.prob0to1
    case WasOne => 1.0 - x.prob1to0
    case Unknown => x.staticProb
  }

  function Weights(fanins: seq<Fanin>, cube: seq<Literal>): (w: seq<real>)
    requires |cube| == |fanins|
    ensures |w| == |fanins| && forall i :: 0 <= i < |w| ==> w[i] == Weight(fanins[i], cube[i])
  {
    seq(|fanins|, i requires 0 <= i < |fanins| => Weight(fanins[i], cube[i]))
  }

  predicate Below(b: Bdd, n: nat) {
    b.Ite? ==> b.index < n && Below(b.then_, n) && Below(b.else_, n)
  }

  // ----- what the diagram computes

  predicate Eval(b: Bdd, a: seq<bool>)
    requires Below(b, |a|)
  {
    match b
    case Zero => false
    case One => true
    case Ite(i, t, e) => if a[i] then Eval(t, a) else Eval(e, a)
  }

  predicate Free(b: Bdd, i: nat) {
    b.Ite? ==> b.index != i && Free(b.then_, i) && Free(b.else_, i)
  }

  /** No path asks for a variable twice; every ordered diagram is like this. */
  predicate ReadOnce(b: Bdd) {
    b.Ite? ==> Free(b.then_, b.index) && Free(b.else_, b.index) && ReadOnce(b.then_) && ReadOnce(b.else_)
  }

  /** Indices grow along every path and start at lo. */
  predicate Ordered(b: Bdd, lo: nat) {
    b.Ite? ==> lo <= b.index && Ordered(b.then_, b.index + 1) && Ordered(b.else_, b.index + 1)
  }

  lemma {:induction false} OrderedIsFree(b: Bdd, lo: nat, i: nat)
    requires Ordered(b, lo) && i < lo
    ensures Free(b, i)
  {
    if b.Ite? {
      OrderedIsFree(b.then_, b.index + 1, i);
      OrderedIsFree(b.else_, b.index + 1, i);
    }
  }

  lemma {:induction false} OrderedReadsOnce(b: Bdd, lo: nat)
    requires Ordered(b, lo)
    ensures ReadOnce(b)
  {
    if b.Ite? {
      OrderedReadsOnce(b.then_, b.index + 1);
      OrderedReadsOnce(b.else_, b.index + 1);
      OrderedIsFree(b.then_, b.index + 1, b.index);
      OrderedIsFree(b.else_, b.index + 1, b.index);
    }
  }

  lemma {:induction false} FreeIgnores(b: Bdd, a: seq<bool>, c: seq<bool>, i: nat)
    requires |a| == |c| && Below(b, |a|) && Free(b, i) && forall k :: 0 <= k < |a| && k != i ==> a[k] == c[k]
    ensures Eval(b, a) == Eval(b, c)
  {
    if b.Ite? {
      FreeIgnores(b.then_, a, c, i);
      FreeIgnores(b.else_, a, c, i);
    }
  }

  // ----- the exhaustive sum

  /** The product of the weights of the bits of a. */
  ghost function Product(w: seq<real>, a: seq<bool>): real
    requires |a| <= |w|
  {
    if a == [] then 1.0
    else
      var k := |a| - 1;
      Mul(Product(w, a[..k]), if a[k] then w[k] else 1.0 - w[k])
  }

  /** The sum, over all assignments that extend a, of their products where the diagram has the phase:
      2^(n - |a|) leaves. */
  ghost function Total(w: seq<real>, b: Bdd, phase: bool, a: seq<bool>): real
    requires |a| <= |w| && Below(b, |w|)
    decreases |w| - |a|
  {
    if |a| == |w| then if Eval(b, a) == phase then Product(w, a) else 0.0
    else Total(w, b, phase, a + [true]) + Total(w, b, phase, a + [false])
  }

  /** The same sum with the weight of a divided out. */
  ghost function Share(w: seq<real>, b: Bdd, phase: bool, a: seq<bool>): real
    requires |a| <= |w| && Below(b, |w|)
    decreases |w| - |a|
  {
    if |a| == |w| then if Eval(b, a) == phase then 1.0 else 0.0
    else Mix(w[|a|], Share(w, b, phase, a + [true]), Share(w, b, phase, a + [false]))
  }

  lemma {:induction false} TotalIsShare(w: seq<real>, b: Bdd, phase: bool, a: seq<bool>)
    requires |a| <= |w| && Below(b, |w|)
    ensures Total(w, b, phase, a) == Mul(Product(w, a), Share(w, b, phase, a))
    decreases |w| - |a|
  {
    hide Mul, Mix, Eval, Product;
    Units(Product(w, a));
    if |a| < |w| {
      TotalIsShare(w, b, phase, a + [true]);
      TotalIsShare(w, b, phase, a + [false]);
      ProductNext(w, a);
      Distribute(Product(w, a), w[|a|], Share(w, b, phase, a + [true]), Share(w, b, phase, a + [false]));
    }
  }

  lemma ProductNext(w: seq<real>, a: seq<bool>)
    requires |a| < |w|
    ensures Product(w, a + [true]) == Mul(Product(w, a), w[|a|])
    ensures Product(w, a + [false]) == Mul(Product(w, a), 1.0 - w[|a|])
  {
    hide Mul;
    assert (a + [true])[..|a|] == a && (a + [false])[..|a|] == a;
  }

  lemma Units(p: real)
    ensures Mul(p, 1.0) == p && Mul(p, 0.0) == 0.0 && Mul(1.0, p) == p
  {
  }

  lemma Distribute(p: real, x: real, s: real, t: real)
    ensures Mul(Mul(p, x), s) + Mul(Mul(p, 1.0 - x), t) == Mul(p, Mix(x, s, t))
  {
    assert p * (x * s) == p * x * s;
    assert p * ((1.0 - x) * t) == p * (1.0 - x) * t;
  }

  /** A variable the diagram does not ask for makes no difference. */
  lemma {:induction false} ShareIgnores(w: seq<real>, b: Bdd, phase: bool, a: seq<bool>, c: seq<bool>, i: nat)
    requires |a| == |c| <= |w| && Below(b, |w|) && Free(b, i) && forall k :: 0 <= k < |a| && k != i ==> a[k] == c[k]
    ensures Share(w, b, phase, a) == Share(w, b, phase, c)
    decreases |w| - |a|
  {
    if |a| == |w| {
      FreeIgnores(b, a, c, i);
    } else {
      ShareIgnores(w, b, phase, a + [true], c + [true], i);
      ShareIgnores(w, b, phase, a + [false], c + [false], i);
    }
  }

  /** Once the bit of the root is fixed, the diagram is one of its branches. */
  lemma {:induction false} ShareBranch(w: seq<real>, b: Bdd, phase: bool, a: seq<bool>)
    requires |a| <= |w| && Below(b, |w|) && b.Ite? && b.index < |a|
    ensures Share(w, b, phase, a) == Share(w, if a[b.index] then b.then_ else b.else_, phase, a)
    decreases |w| - |a|
  {
    if |a| < |w| {
      ShareBranch(w, b, phase, a + [true]);
      ShareBranch(w, b, phase, a + [false]);
    }
  }

  /** Before it is fixed, the shares of the branches mix with its weight. */
  lemma {:induction false} ShareMixes(w: seq<real>, b: Bdd, phase: bool, a: seq<bool>)
    requires |a| <= |w| && Below(b, |w|) && b.Ite? && |a| <= b.index
    requires Free(b.then_, b.index) && Free(b.else_, b.index)
    ensures Share(w, b, phase, a) == Mix(w[b.index], Share(w, b.then_, phase, a), Share(w, b.else_, phase, a))
    decreases |w| - |a|
  {
    hide Mix, Free, Eval;
    if |a| == b.index {
      ShareBranch(w, b, phase, a + [true]);
      ShareBranch(w, b, phase, a + [false]);
      ShareIgnores(w, b.then_, phase, a + [true], a + [false], b.index);
      ShareIgnores(w, b.else_, phase, a + [true], a + [false], b.index);
      Absorb(w[b.index], Share(w, b.then_, phase, a + [true]));
      Absorb(w[b.index], Share(w, b.else_, phase, a + [true]));
    } else {
      ShareMixes(w, b, phase, a + [true]);
      ShareMixes(w, b, phase, a + [false]);
      Exchange(w[|a|], w[b.index], Share(w, b.then_, phase, a + [true]), Share(w, b.else_, phase, a + [true]),
               Share(w, b.then_, phase, a + [false]), Share(w, b.else_, phase, a + [false]));
    }
  }

  lemma Absorb(x: real, s: real)
    ensures Mix(x, s, s) == s
  {
  }

  lemma Exchange(x: real, y: real, a: real, b: real, c: real, d: real)
    ensures Mix(x, Mix(y, a, b), Mix(y, c, d)) == Mix(y, Mix(x, a, c), Mix(x, b, d))
  {
    var x', y' := 1.0 - x, 1.0 - y;
    Distribute4(x, y, y', a, b);
    Distribute4(x', y, y', c, d);
    Distribute4(y, x, x', a, c);
    Distribute4(y', x, x', b, d);
    assert x * y * a == y * x * a && x * y' * b == y' * x * b && x' * y * c == y * x' * c && x' * y' * d == y' * x' * d;
  }

  lemma Distribute4(p: real, y: real, z: real, a: real, b: real)
    ensures p * (y * a + z * b) == p * y * a + p * z * b
  {
    assert p * (y * a) == p * y * a && p * (z * b) == p * z * b;
  }

  // ----- the recursive traversal

  /** What calc_cube_switch_prob_recur computes, without its table. */
  ghost function CubeProb(w: seq<real>, b: Bdd, phase: bool): real
    requires Below(b, |w|)
  {
    match b
    case Zero => if phase then 0.0 else 1.0
    case One => if phase then 1.0 else 0.0
    case Ite(i, t, e) => Mix(w[i], CubeProb(w, t, phase), CubeProb(w, e, phase))
  }

  lemma {:induction false} CubeProbIsUnit(w: seq<real>, b: Bdd, phase: bool)
    requires Below(b, |w|) && forall i :: 0 <= i < |w| ==> UnitReal(w[i])
    ensures UnitReal(CubeProb(w, b, phase))
  {
    hide Mix;
    if b.Ite? {
      CubeProbIsUnit(w, b.then_, phase);
      CubeProbIsUnit(w, b.else_, phase);
      MixIsUnit(w[b.index], CubeProb(w, b.then_, phase), CubeProb(w, b.else_, phase));
    }
  }

  lemma MixIsUnit(x: real, p: real, q: real)
    requires UnitReal(x) && UnitReal(p) && UnitReal(q)
    ensures UnitReal(Mix(x, p, q))
  {
    assert 0.0 <= x * p <= x by { Times(x, p); }
    assert 0.0 <= (1.0 - x) * q <= 1.0 - x by { Times(1.0 - x, q); }
  }

  lemma Times(x: real, p: real)
    requires 0.0 <= x && UnitReal(p)
    ensures 0.0 <= x * p <= x
  {
    assert x * p + x * (1.0 - p) == x;
    assert x * (1.0 - p) >= 0.0;
  }

  lemma EmptyProduct(w: seq<real>)
    ensures Product(w, []) == 1.0
  {
  }

  /** The traversal stands for the sum over all 2^n assignments. */
  lemma {:induction false} TraversalIsTheSum(w: seq<real>, b: Bdd, phase: bool)
    requires Below(b, |w|) && ReadOnce(b)
    ensures CubeProb(w, b, phase) == Share(w, b, phase, []) == Total(w, b, phase, [])
  {
    hide Mix, Mul, Total, Share, Product;
    TotalIsShare(w, b, phase, []);
    EmptyProduct(w);
    Units(Share(w, b, phase, []));
    match b {
      case Zero => ConstantShare(w, b, phase, []);
      case One => ConstantShare(w, b, phase, []);
      case Ite(i, t, e) =>
        TraversalIsTheSum(w, t, phase);
        TraversalIsTheSum(w, e, phase);
        ShareMixes(w, b, phase, []);
    }
  }

  lemma {:induction false} ConstantShare(w: seq<real>, b: Bdd, phase: bool, a: seq<bool>)
    requires |a| <= |w| && !b.Ite?
    ensures Share(w, b, phase, a) == if b.One? == phase then 1.0 else 0.0
    decreases |w| - |a|
  {
    if |a| < |w| {
      ConstantShare(w, b, phase, a + [true]);
      ConstantShare(w, b, phase, a + [false]);
    }
  }

  lemma {:induction false} PhasesSumToOne(w: seq<real>, b: Bdd)
    requires Below(b, |w|)
    ensures CubeProb(w, b, true) + CubeProb(w, b, false) == 1.0
  {
    hide Mix;
    if b.Ite? {
      PhasesSumToOne(w, b.then_);
      PhasesSumToOne(w, b.else_);
      MixOfOnes(w[b.index], CubeProb(w, b.then_, true), CubeProb(w, b.then_, false),
                CubeProb(w, b.else_, true), CubeProb(w, b.else_, false));
    }
  }

  lemma MixOfOnes(x: real, p: real, p': real, q: real, q': real)
    requires p + p' == 1.0 && q + q' == 1.0
    ensures Mix(x, p, q) + Mix(x, p', q') == 1.0
  {
    assert x * (p + p') == x * p + x * p';
    assert (1.0 - x) * (q + q') == (1.0 - x) * q + (1.0 - x) * q';
  }

  ghost predicate EntriesRight(table: map<Bdd, real>, w: seq<real>, phase: bool) {
    forall b :: b in table ==> Below(b, |w|) && table[b] == CubeProb(w, b, phase)
  }

  lemma EntryAdded(table: map<Bdd, real>, w: seq<real>, phase: bool, b: Bdd)
    requires EntriesRight(table, w, phase) && Below(b, |w|)
    ensures EntriesRight(table[b := CubeProb(w, b, phase)], w, phase)
  {
    hide CubeProb, Below;
  }

  lemma EntryIs(table: map<Bdd, real>, w: seq<real>, phase: bool, b: Bdd)
    requires EntriesRight(table, w, phase) && b in table && Below(b, |w|)
    ensures table[b] == CubeProb(w, b, phase)
  {
    hide CubeProb;
  }

  /** The switch over the literal: three formulas, one mix of the literal's weight. */
  method ByLiteral(x: Fanin, l: Literal, thenProb: real, elseProb: real) returns (p: real)
    ensures p == Mix(Weight(x, l), thenProb, elseProb)
  {
    match l {
      case WasZero => p := x.prob0to1 * thenProb + (1.0 - x.prob0to1) * elseProb;
      case WasOne => p := (1.0 - x.prob1to0) * thenProb + x.prob1to0 * elseProb;
      case Unknown => p := x.staticProb * thenProb + (1.0 - x.staticProb) * elseProb;
    }
  }

  /** The visited table of one call; entries are right for the cube and phase of that call. */
  class Visited {
    var table: map<Bdd, real>

    constructor ()
      ensures table == map[]
    {
      table := map[];
    }

    ghost predicate Right(w: seq<real>, phase: bool)
      reads this
    {
      EntriesRight(table, w, phase)
    }

    /** calc_cube_switch_prob_recur: looking results up in the table changes none of them. */
    method CubeProbRecur(b: Bdd, fanins: seq<Fanin>, cube: seq<Literal>, phase: bool) returns (p: real)
      requires |cube| == |fanins| && Below(b, |fanins|) && Right(Weights(fanins, cube), phase)
      modifies this
      ensures Right(Weights(fanins, cube), phase) && p == CubeProb(Weights(fanins, cube), b, phase)
      decreases b
    {
      hide EntriesRight, Mix;
      if b == Zero {
        return if phase then 0.0 else 1.0;
      } else if b == One {
        return if phase then 1.0 else 0.0;
      }
      if b in table {
        EntryIs(table, Weights(fanins, cube), phase, b);
        return table[b];
      }
      var i := b.index;
      var thenProb := CubeProbRecur(b.then_, fanins, cube, phase);
      var elseProb := CubeProbRecur(b.else_, fanins, cube, phase);
      p := ByLiteral(fanins[i], cube[i], thenProb, elseProb);
      EntryAdded(table, Weights(fanins, cube), phase, b);
      table := table[b := p];
    }
  }

  /** calc_cube_switch_prob: the probability that the diagram has the phase next, given the cube. */
  method CubeSwitchProb(b: Bdd, fanins: seq<Fanin>, cube: seq<Literal>, phase: bool) returns (p: real)
    requires |cube| == |fanins| && Below(b, |fanins|) && ReadOnce(b)
    ensures p == Total(Weights(fanins, cube), b, phase, [])
    ensures (forall i :: 0 <= i < |fanins| ==> FaninOk(fanins[i])) ==> UnitReal(p)
  {
    var visited := new Visited();
    p := visited.CubeProbRecur(b, fanins, cube, phase);
    TraversalIsTheSum(Weights(fanins, cube), b, phase);
    if FaninsOk(fanins) {
      WeightsOk(fanins, cube);
      CubeProbIsUnit(Weights(fanins, cube), b, phase);
    }
  }

  // ----- the outer recursion

  /** A leaf adds its path's cube probability when the diagram is now in the other phase. */
  predicate Contributes(leaf: Bdd, phase: bool) { leaf.Zero? == phase }

  /** calc_switch_prob_recur as written: the path probability enters twice. */
  ghost function SwitchProb(next: Bdd, b: Bdd, fanins: seq<Fanin>, cube: seq<Literal>, p1: real, phase: bool): real
    requires |cube| == |fanins| && Below(next, |fanins|) && Below(b, |fanins|)
    decreases b
  {
    match b
    case Ite(i, t, e) =>
      SwitchProb(next, t, fanins, cube[i := WasOne], Mul(p1, fanins[i].staticProb), phase)
      + SwitchProb(next, e, fanins, cube[i := WasZero], Mul(p1, 1.0 - fanins[i].staticProb), phase)
    case _ => if Contributes(b, phase) then Mul(Mul(CubeProb(Weights(fanins, cube), next, phase), p1), p1) else 0.0
  }

  /** The probability of a switch into the phase: each path counted with its probability, once. */
  ghost function PathSum(next: Bdd, b: Bdd, fanins: seq<Fanin>, cube: seq<Literal>, p1: real, phase: bool): real
    requires |cube| == |fanins| && Below(next, |fanins|) && Below(b, |fanins|)
    decreases b
  {
    match b
    case Ite(i, t, e) =>
      PathSum(next, t, fanins, cube[i := WasOne], Mul(p1, fanins[i].staticProb), phase)
      + PathSum(next, e, fanins, cube[i := WasZero], Mul(p1, 1.0 - fanins[i].staticProb), phase)
    case _ => if Contributes(b, phase) then Mul(CubeProb(Weights(fanins, cube), next, phase), p1) else 0.0
  }

  /** Under these weights the diagram cannot get the phase, told from the weights zero and one alone. */
  predicate Never(w: seq<real>, b: Bdd, phase: bool)
    requires Below(b, |w|)
  {
    match b
    case Ite(i, t, e) => (w[i] == 0.0 || Never(w, t, phase)) && (w[i] == 1.0 || Never(w, e, phase))
    case _ => b.One? != phase
  }

  /** Every bit of a has a chance. */
  predicate Possible(w: seq<real>, a: seq<bool>)
    requires |a| == |w|
  {
    forall i :: 0 <= i < |a| ==> if a[i] then w[i] != 0.0 else w[i] != 1.0
  }

  lemma {:induction false} NeverExactly(w: seq<real>, b: Bdd, phase: bool)
    requires Below(b, |w|) && forall i :: 0 <= i < |w| ==> UnitReal(w[i])
    ensures CubeProb(w, b, phase) == 0.0 <==> Never(w, b, phase)
  {
    hide Mix;
    if b.Ite? {
      NeverExactly(w, b.then_, phase);
      NeverExactly(w, b.else_, phase);
      CubeProbIsUnit(w, b.then_, phase);
      CubeProbIsUnit(w, b.else_, phase);
      MixIsZero(w[b.index], CubeProb(w, b.then_, phase), CubeProb(w, b.else_, phase));
    }
  }

  lemma MixIsZero(x: real, p: real, q: real)
    requires UnitReal(x) && UnitReal(p) && UnitReal(q)
    ensures Mix(x, p, q) == 0.0 <==> (x == 0.0 || p == 0.0) && (x == 1.0 || q == 0.0)
  {
    if x > 0.0 && p > 0.0 {
      Positive(x, p);
      Times(1.0 - x, q);
    } else if 1.0 - x > 0.0 && q > 0.0 {
      Positive(1.0 - x, q);
      Times(x, p);
    }
  }

  lemma {:induction false} NeverHappens(w: seq<real>, b: Bdd, phase: bool, a: seq<bool>)
    requires Below(b, |w|) && Never(w, b, phase) && |a| == |w| && Possible(w, a)
    ensures Eval(b, a) != phase
  {
    if b.Ite? {
      NeverHappens(w, if a[b.index] then b.then_ else b.else_, phase, a);
    }
  }

  lemma {:induction false} ElseHappens(w: seq<real>, b: Bdd, phase: bool) returns (a: seq<bool>)
    requires Below(b, |w|) && ReadOnce(b) && !Never(w, b, phase)
    ensures |a| == |w| && Possible(w, a) && Eval(b, a) == phase
  {
    match b {
      case Ite(i, t, e) =>
        var up := !(w[i] == 0.0 || Never(w, t, phase));
        var c := ElseHappens(w, if up then t else e, phase);
        a := c[i := up];
        FreeIgnores(if up then t else e, c, a, i);
      case _ =>
        a := seq(|w|, i requires 0 <= i < |w| => w[i] != 0.0);
    }
  }

  /** Never means what it says: no assignment that has a chance gives the phase. */
  lemma NeverMeans(w: seq<real>, b: Bdd, phase: bool)
    requires Below(b, |w|) && ReadOnce(b)
    ensures Never(w, b, phase) <==> forall a :: |a| == |w| && Possible(w, a) ==> Eval(b, a) != phase
  {
    if Never(w, b, phase) {
      forall a | |a| == |w| && Possible(w, a) ensures Eval(b, a) != phase {
        NeverHappens(w, b, phase, a);
      }
    } else {
      var a := ElseHappens(w, b, phase);
      assert Eval(b, a) == phase;
    }
  }

  /** Told from the fanins' probabilities and the two diagrams before anything is computed: every
      contributing path is certain, impossible, or followed by no switch. */
  predicate Sharp(next: Bdd, b: Bdd, fanins: seq<Fanin>, cube: seq<Literal>, possible: bool, certain: bool, phase: bool)
    requires |cube| == |fanins| && Below(next, |fanins|) && Below(b, |fanins|)
    decreases b
  {
    match b
    case Ite(i, t, e) =>
      var s := fanins[i].staticProb;
      Sharp(next, t, fanins, cube[i := WasOne], possible && s != 0.0, certain && s == 1.0, phase)
      && Sharp(next, e, fanins, cube[i := WasZero], possible && s != 1.0, certain && s == 0.0, phase)
    case _ => Contributes(b, phase) ==> !possible || certain || Never(Weights(fanins, cube), next, phase)
  }

  ghost predicate FaninsOk(fanins: seq<Fanin>) {
    forall i :: 0 <= i < |fanins| ==> FaninOk(fanins[i])
  }

  lemma WeightsOk(fanins: seq<Fanin>, cube: seq<Literal>)
    requires |cube| == |fanins| && FaninsOk(fanins)
    ensures forall i :: 0 <= i < |fanins| ==> UnitReal(Weights(fanins, cube)[i])
  {
  }

  lemma SplitPath(p: real, s: real)
    requires UnitReal(p) && UnitReal(s)
    ensures UnitReal(Mul(p, s)) && UnitReal(Mul(p, 1.0 - s)) && Mul(p, s) + Mul(p, 1.0 - s) == p
    ensures Mul(Mul(p, s), Mul(p, s)) + Mul(Mul(p, 1.0 - s), Mul(p, 1.0 - s)) <= Mul(p, p)
  {
    Times(p, s);
    Times(p, 1.0 - s);
    var x, y := p * s, p * (1.0 - s);
    assert x + y == p;
    Square(x, y);
  }

  /** A product of probabilities is impossible or certain exactly when one or both factors are. */
  lemma Corners(p: real, s: real)
    requires UnitReal(p) && UnitReal(s)
    ensures Mul(p, s) == 0.0 <==> p == 0.0 || s == 0.0
    ensures Mul(p, s) == 1.0 <==> p == 1.0 && s == 1.0
  {
    Times(p, s);
    Times(s, p);
    if p > 0.0 && s > 0.0 {
      Positive(p, s);
    }
  }

  lemma Square(x: real, y: real)
    requires x >= 0.0 && y >= 0.0
    ensures x * x + y * y <= (x + y) * (x + y)
  {
    assert (x + y) * (x + y) == x * x + y * y + 2.0 * (x * y);
    assert x * y >= 0.0;
  }

  lemma LeafBounds(c: real, p: real)
    requires UnitReal(c) && UnitReal(p)
    ensures 0.0 <= Mul(Mul(c, p), p) <= Mul(c, p) <= p && Mul(Mul(c, p), p) <= Mul(p, p) && 0.0 <= Mul(p, p)
    ensures Mul(Mul(c, p), p) == Mul(c, p) <==> p == 0.0 || p == 1.0 || c == 0.0
  {
    hide Mul;
    MulShrinks(c, p);
    MulShrinks(p, c);
    MulShrinks(Mul(c, p), p);
    MulShrinks(p, p);
    MulShrinks(Mul(p, p), c);
    Reorder(c, p);
    LeafExact(c, p);
  }

  lemma MulShrinks(x: real, p: real)
    requires 0.0 <= x && UnitReal(p)
    ensures 0.0 <= Mul(x, p) <= x
  {
    Times(x, p);
  }

  lemma Reorder(c: real, p: real)
    ensures Mul(c, p) == Mul(p, c) && Mul(Mul(c, p), p) == Mul(Mul(p, p), c)
  {
  }

  lemma LeafExact(c: real, p: real)
    requires UnitReal(c) && UnitReal(p)
    ensures Mul(Mul(c, p), p) == Mul(c, p) <==> p == 0.0 || p == 1.0 || c == 0.0
  {
    var x := c * p;
    assert x * p + x * (1.0 - p) == x;
    if p != 0.0 && p != 1.0 && c != 0.0 {
      Positive(c, p);
      Positive(x, 1.0 - p);
    }
  }

  lemma Positive(x: real, y: real)
    requires x > 0.0 && y > 0.0
    ensures x * y > 0.0
  {
  }

  /** The bounds on what is computed, and when it is exact. */
  ghost predicate Bounded(next: Bdd, b: Bdd, fanins: seq<Fanin>, cube: seq<Literal>, p1: real, phase: bool)
    requires |cube| == |fanins| && Below(next, |fanins|) && Below(b, |fanins|)
  {
    && 0.0 <= SwitchProb(next, b, fanins, cube, p1, phase) <= PathSum(next, b, fanins, cube, p1, phase) <= p1
    && SwitchProb(next, b, fanins, cube, p1, phase) <= Mul(p1, p1)
    && (SwitchProb(next, b, fanins, cube, p1, phase) == PathSum(next, b, fanins, cube, p1, phase)
        <==> Sharp(next, b, fanins, cube, p1 != 0.0, p1 == 1.0, phase))
  }

  /** The computed probability is never negative, at most the path-weighted one, which is at most the
      probability of getting here, and at most its square; it is the path-weighted one exactly when
      every contributing path is certain, impossible or without a switch. */
  lemma {:induction false} SwitchProbBounds(next: Bdd, b: Bdd, fanins: seq<Fanin>, cube: seq<Literal>, p1: real,
      phase: bool)
    requires |cube| == |fanins| && Below(next, |fanins|) && Below(b, |fanins|) && FaninsOk(fanins) && UnitReal(p1)
    ensures Bounded(next, b, fanins, cube, p1, phase)
    decreases b
  {
    hide *;
    match b {
      case Ite(i, t, e) =>
        NextPath(b, fanins, p1);
        var s := fanins[i].staticProb;
        SwitchProbBounds(next, t, fanins, cube[i := WasOne], Mul(p1, s), phase);
        SwitchProbBounds(next, e, fanins, cube[i := WasZero], Mul(p1, 1.0 - s), phase);
        BothBranches(next, b, fanins, cube, p1, phase);
      case _ =>
        LeafCase(next, b, fanins, cube, p1, phase);
    }
  }

  lemma NextPath(b: Bdd, fanins: seq<Fanin>, p1: real)
    requires b.Ite? && Below(b, |fanins|) && FaninsOk(fanins) && UnitReal(p1)
    ensures Below(b.then_, |fanins|) && Below(b.else_, |fanins|) && b.index < |fanins|
    ensures var s := fanins[b.index].staticProb;
      UnitReal(s) && UnitReal(1.0 - s) && UnitReal(Mul(p1, s)) && UnitReal(Mul(p1, 1.0 - s))
  {
    hide Mul;
    assert FaninOk(fanins[b.index]);
    SplitPath(p1, fanins[b.index].staticProb);
  }

  lemma BothBranches(next: Bdd, b: Bdd, fanins: seq<Fanin>, cube: seq<Literal>, p1: real, phase: bool)
    requires |cube| == |fanins| && Below(next, |fanins|) && Below(b, |fanins|) && FaninsOk(fanins) && UnitReal(p1)
      && b.Ite?
    requires Bounded(next, b.then_, fanins, cube[b.index := WasOne], Mul(p1, fanins[b.index].staticProb), phase)
    requires Bounded(next, b.else_, fanins, cube[b.index := WasZero], Mul(p1, 1.0 - fanins[b.index].staticProb), phase)
    ensures Bounded(next, b, fanins, cube, p1, phase)
  {
    hide Mul, SwitchProb, PathSum, Sharp, FaninOk;
    var s := fanins[b.index].staticProb;
    NextPath(b, fanins, p1);
    SplitPath(p1, s);
    Corners(p1, s);
    Corners(p1, 1.0 - s);
    Unfolds(next, b, fanins, cube, p1, phase);
    var one, zero := cube[b.index := WasOne], cube[b.index := WasZero];
    var x, y := Mul(p1, s), Mul(p1, 1.0 - s);
    AddBounds(SwitchProb(next, b.then_, fanins, one, x, phase), SwitchProb(next, b.else_, fanins, zero, y, phase),
              PathSum(next, b.then_, fanins, one, x, phase), PathSum(next, b.else_, fanins, zero, y, phase),
              x, y, Mul(x, x), Mul(y, y), p1, Mul(p1, p1));
  }

  lemma Unfolds(next: Bdd, b: Bdd, fanins: seq<Fanin>, cube: seq<Literal>, p1: real, phase: bool)
    requires |cube| == |fanins| && Below(next, |fanins|) && Below(b, |fanins|) && b.Ite?
    ensures var s := fanins[b.index].staticProb;
      var one, zero := cube[b.index := WasOne], cube[b.index := WasZero];
      && SwitchProb(next, b, fanins, cube, p1, phase)
        == SwitchProb(next, b.then_, fanins, one, Mul(p1, s), phase)
         + SwitchProb(next, b.else_, fanins, zero, Mul(p1, 1.0 - s), phase)
      && PathSum(next, b, fanins, cube, p1, phase)
        == PathSum(next, b.then_, fanins, one, Mul(p1, s), phase)
          + PathSum(next, b.else_, fanins, zero, Mul(p1, 1.0 - s), phase)
      && forall possible, certain ::
           Sharp(next, b, fanins, cube, possible, certain, phase) <==>
           Sharp(next, b.then_, fanins, one, possible && s != 0.0, certain && s == 1.0, phase)
           && Sharp(next, b.else_, fanins, zero, possible && s != 1.0, certain && s == 0.0, phase)
  {
    hide Mul;
  }

  lemma AddBounds(st: real, se: real, pt: real, pe: real, x: real, y: real, mx: real, my: real, p: real, m: real)
    requires 0.0 <= st <= pt <= x && 0.0 <= se <= pe <= y && st <= mx && se <= my && x + y == p && mx + my <= m
    ensures 0.0 <= st + se <= pt + pe <= p && st + se <= m
    ensures st + se == pt + pe <==> st == pt && se == pe
  {
  }

  lemma LeafCase(next: Bdd, b: Bdd, fanins: seq<Fanin>, cube: seq<Literal>, p1: real, phase: bool)
    requires |cube| == |fanins| && Below(next, |fanins|) && FaninsOk(fanins) && UnitReal(p1) && !b.Ite?
    ensures Bounded(next, b, fanins, cube, p1, phase)
  {
    hide Mul, Weights, CubeProb, Never;
    WeightsOk(fanins, cube);
    CubeProbIsUnit(Weights(fanins, cube), next, phase);
    NeverExactly(Weights(fanins, cube), next, phase);
    LeafBounds(CubeProb(Weights(fanins, cube), next, phase), p1);
  }

  /** calc_switch_prob_recur */
  method SwitchProbRecur(next: Bdd, b: Bdd, fanins: seq<Fanin>, cube: seq<Literal>, p1: real, phase: bool)
      returns (r: real)
    requires |cube| == |fanins| && Below(next, |fanins|) && Below(b, |fanins|) && ReadOnce(next)
    ensures r == SwitchProb(next, b, fanins, cube, p1, phase)
    decreases b
  {
    hide Mul, Total, Share, Weights, CubeProb;
    if b == Zero {
      if !phase {
        return 0.0;
      }
      var prob := CubeSwitchProb(next, fanins, cube, phase);
      TraversalIsTheSum(Weights(fanins, cube), next, phase);
      prob := Mul(prob, p1);
      return Mul(prob, p1);
    } else if b == One {
      if phase {
        return 0.0;
      }
      var prob := CubeSwitchProb(next, fanins, cube, phase);
      TraversalIsTheSum(Weights(fanins, cube), next, phase);
      prob := Mul(prob, p1);
      return Mul(prob, p1);
    }
    var i := b.index;
    var t := SwitchProbRecur(next, b.then_, fanins, cube[i := WasOne], Mul(p1, fanins[i].staticProb), phase);
    var e := SwitchProbRecur(next, b.else_, fanins, cube[i := WasZero], Mul(p1, 1.0 - fanins[i].staticProb), phase);
    return t + e;
  }

  // ----- what the three literals mean

  /** Of an input that was one, the transition to zero has its probability; of one that was zero, the
      transition to one; of one nothing is known of, being one has its static probability. */
  lemma LiteralsMean(fanins: seq<Fanin>, cube: seq<Literal>, i: nat)
    requires |cube| == |fanins| && i < |fanins|
    ensures var b := Ite(i, One, Zero);
      var p := CubeProb(Weights(fanins, cube), b, true);
      var q := CubeProb(Weights(fanins, cube), b, false);
      && p + q == 1.0
      && (cube[i] == WasOne ==> q == fanins[i].prob1to0)
      && (cube[i] == WasZero ==> p == fanins[i].prob0to1)
      && (cube[i] == Unknown ==> p == fanins[i].staticProb)
  {
    PhasesSumToOne(Weights(fanins, cube), Ite(i, One, Zero));
  }

  /** The buffer of one input that is one half of the time: the code halves its switching probability,
      upwards and downwards. */
  lemma DoubleCountHalves(p01: real, p10: real)
    requires 0.0 < p01 <= 1.0 && 0.0 < p10 <= 1.0
    ensures var b := Ite(0, One, Zero);
      var fanins := [Fanin(0.5, p01, p10)];
      && SwitchProb(b, b, fanins, [Unknown], 1.0, true) == 0.25 * p01
      && PathSum(b, b, fanins, [Unknown], 1.0, true) == 0.5 * p01
      && SwitchProb(b, b, fanins, [Unknown], 1.0, false) == 0.25 * p10
      && PathSum(b, b, fanins, [Unknown], 1.0, false) == 0.5 * p10
  {
    var b := Ite(0, One, Zero);
    var fanins := [Fanin(0.5, p01, p10)];
    LiteralsMean(fanins, [WasZero], 0);
    LiteralsMean(fanins, [WasOne], 0);
    assert [Unknown][0 := WasZero] == [WasZero] && [Unknown][0 := WasOne] == [WasOne];
  }
}
