/** What the simulator's counters mean: ones, zeros and toggles of a value history. */
module AceCounts {

  function Ones(s: seq<bool>): nat {
    if s == [] then 0 else Ones(s[..|s| - 1]) + if s[|s| - 1] then 1 else 0
  }

  function Zeros(s: seq<bool>): nat {
    if s == [] then 0 else Zeros(s[..|s| - 1]) + if s[|s| - 1] then 0 else 1
  }

  function Toggles(s: seq<bool>): nat {
    if |s| <= 1 then 0 else Toggles(s[..|s| - 1]) + if s[|s| - 1] != s[|s| - 2] then 1 else 0
  }

  /** A primary input counts its first one as a toggle. */
  function PiToggles(s: seq<bool>): nat {
    Toggles(s) + if s != [] && s[0] then 1 else 0
  }

  /** Adjacent pairs of zeros. */
  function ZeroPairs(s: seq<bool>): nat {
    if |s| <= 1 then 0 else ZeroPairs(s[..|s| - 1]) + if !s[|s| - 1] && !s[|s| - 2] then 1 else 0
  }

  function OnePairs(s: seq<bool>): nat {
    if |s| <= 1 then 0 else OnePairs(s[..|s| - 1]) + if s[|s| - 1] && s[|s| - 2] then 1 else 0
  }

  function Bit(b: bool): nat {
    if b then 1 else 0
  }

  /** A run of equal values is bounded by two toggles, less one where it touches an end. */
  lemma {:induction false} TogglesOfRuns(s: seq<bool>)
    requires s != []
    ensures Toggles(s) + Bit(!s[0]) + Bit(!s[|s| - 1]) == 2 * (Zeros(s) - ZeroPairs(s))
    ensures Toggles(s) + Bit(s[0]) + Bit(s[|s| - 1]) == 2 * (Ones(s) - OnePairs(s))
  {
    if |s| == 1 {
      assert s[..0] == [];
    } else {
      TogglesOfRuns(s[..|s| - 1]);
    }
  }

  /** num_toggles <= 2 * min(ones, zeros) for every history of a logic node. */
  lemma TogglesAreBounded(s: seq<bool>)
    ensures Toggles(s) <= 2 * Ones(s) && Toggles(s) <= 2 * Zeros(s)
  {
    if s != [] {
      TogglesOfRuns(s);
    }
  }

  lemma {:induction false} Covered(s: seq<bool>)
    ensures Ones(s) + Zeros(s) == |s| && (s != [] ==> PiToggles(s) <= |s|)
  {
    if |s| > 1 {
      Covered(s[..|s| - 1]);
    } else if |s| == 1 {
      Covered(s[..0]);
    }
  }

  lemma {:induction false} ZeroPairsNone(s: seq<bool>)
    ensures ZeroPairs(s) == 0 <==> forall i :: 0 <= i < |s| - 1 ==> s[i] || s[i + 1]
  {
    if |s| > 1 {
      var r := s[..|s| - 1];
      ZeroPairsNone(r);
      if ZeroPairs(s) == 0 {
        forall i | 0 <= i < |s| - 1 ensures s[i] || s[i + 1] {
          if i < |r| - 1 { assert r[i] || r[i + 1]; }
        }
      } else if ZeroPairs(r) != 0 {
        var i :| 0 <= i < |r| - 1 && !(r[i] || r[i + 1]);
        assert !(s[i] || s[i + 1]);
      } else {
        assert !(s[|s| - 2] || s[|s| - 1]);
      }
    }
  }

  lemma HistoryOfOne(v: bool)
    ensures Ones([v]) == Bit(v) == PiToggles([v]) && Toggles([v]) == 0
  {
    assert [v][..0] == [];
  }

  /** What one more value adds to the counts. */
  lemma HistoryNext(s: seq<bool>, v: bool)
    requires s != []
    ensures Ones(s + [v]) == Ones(s) + Bit(v)
    ensures Toggles(s + [v]) == Toggles(s) + Bit(v != s[|s| - 1])
    ensures PiToggles(s + [v]) == PiToggles(s) + Bit(v != s[|s| - 1])
  {
    assert (s + [v])[..|s|] == s;
  }

  /** EPSILON of ace.h */
  const EPSILON: real := 0.00001

  /** The final assertions of ace_sim_activities on one object's counters. */
  predicate AssertionsHold(ones: nat, toggles: nat, cycles: nat)
    requires cycles > 0
  {
    var staticProb := ones as real / cycles as real;
    var switchProb := toggles as real / cycles as real;
    && 0.0 <= staticProb <= 1.0
    && 0.0 <= switchProb <= 1.0
    && switchProb - EPSILON <= 2.0 * (1.0 - staticProb)
    && switchProb - EPSILON <= 2.0 * staticProb
  }

  lemma Scaled(x: real, y: real, n: real)
    requires n > 0.0
    ensures x <= y <==> x * n <= y * n
  {
    if x <= y {
      assert 0.0 <= (y - x) * n == y * n - x * n;
    } else {
      assert 0.0 < (x - y) * n == x * n - y * n;
    }
  }

  lemma Ratio(a: nat, n: nat) returns (p: real)
    requires n > 0 && a <= n
    ensures p == a as real / n as real && p * n as real == a as real && 0.0 <= p <= 1.0
  {
    p := a as real / n as real;
    Scaled(0.0, p, n as real);
    Scaled(p, 1.0, n as real);
  }

  /** The assertions, multiplied out. */
  lemma AssertionsScaled(ones: nat, toggles: nat, cycles: nat)
    requires cycles > 0 && ones <= cycles && toggles <= cycles
    ensures AssertionsHold(ones, toggles, cycles) <==>
      (toggles as real <= 2.0 * (cycles - ones) as real + EPSILON * cycles as real
       && toggles as real <= 2.0 * ones as real + EPSILON * cycles as real)
  {
    var p := Ratio(ones, cycles);
    var q := Ratio(toggles, cycles);
    Cleared(p, q, EPSILON, cycles as real, ones as real, toggles as real);
    assert (cycles - ones) as real == cycles as real - ones as real;
  }

  lemma Cleared(p: real, q: real, e: real, n: real, a: real, b: real)
    requires n > 0.0 && p * n == a && q * n == b
    ensures q - e <= 2.0 * (1.0 - p) <==> b <= 2.0 * (n - a) + e * n
    ensures q - e <= 2.0 * p <==> b <= 2.0 * a + e * n
  {
    Scaled(q - e, 2.0 * (1.0 - p), n);
    Scaled(q - e, 2.0 * p, n);
    assert (q - e) * n == q * n - e * n;
    assert (2.0 * (1.0 - p)) * n == 2.0 * n - 2.0 * (p * n);
    assert (2.0 * p) * n == 2.0 * (p * n);
  }

  /** No logic node ever trips the assertions. */
  lemma LogicAssertionsHold(s: seq<bool>)
    requires s != []
    ensures AssertionsHold(Ones(s), Toggles(s), |s|)
  {
    TogglesAreBounded(s);
    Covered(s);
    AssertionsScaled(Ones(s), Toggles(s), |s|);
  }

  /** A primary input trips them exactly when its stream starts and ends with one, never holds zero
      for two cycles, and is shorter than 1 / EPSILON. */
  lemma PiAssertionsExactly(s: seq<bool>)
    requires s != []
    ensures AssertionsHold(Ones(s), PiToggles(s), |s|) <==>
      !(s[0] && s[|s| - 1] && (forall i :: 0 <= i < |s| - 1 ==> s[i] || s[i + 1]) && |s| < 100000)
  {
    TogglesOfRuns(s);
    Covered(s);
    ZeroPairsNone(s);
    AssertionsScaled(Ones(s), PiToggles(s), |s|);
    assert |s| - Ones(s) == Zeros(s);
    assert PiToggles(s) <= 2 * Ones(s);
    if PiToggles(s) <= 2 * Zeros(s) {
      assert EPSILON * |s| as real >= 0.0;
    } else {
      assert PiToggles(s) == 2 * Zeros(s) + 1;
      assert EPSILON * |s| as real >= 1.0 <==> |s| >= 100000;
    }
  }

  /** The shortest such stream: a single one. */
  lemma PiAssertionFails()
    ensures !AssertionsHold(Ones([true]), PiToggles([true]), 1)
  {
    PiAssertionsExactly([true]);
  }
}
