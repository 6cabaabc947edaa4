/** How patterns are weighed against each other (pick_pattern_fit_ble). */
module PatternScale {
  import opened LogicNetwork
  import opened BleState

  /** The attraction of a set of nodes to a BLE, and the path weight that breaks ties. */
  datatype Attraction = Attraction(average: real, paths: real)

  /** The weights do not depend on the flags of tried patterns, which are left out of the network. */
  type Weigher = (Net, Ble, seq<nat>) -> Attraction

  function Bare(net: Net): Net { net.(tried := []) }

  /** What the patterns for one cell are weighed with. */
  datatype Scale = Scale(net: Net, ble: Ble, weigh: Weigher, forbid: bool)

  function Weight(sc: Scale, cand: seq<nat>): Attraction { sc.weigh(sc.net, sc.ble, cand) }

  /** A weight of -1 of the BLE on its own stands for a blank one, which looks for a seed. */
  predicate Seeding(sc: Scale) { Weight(sc, []).average == -1.0 }

  /** For a seed the weight is averaged once more, over the pattern. */
  function Score(sc: Scale, cand: seq<nat>): Attraction
    requires cand != []
  {
    var a := Weight(sc, cand);
    Attraction(if Seeding(sc) then a.average / (|cand| as real) else a.average, a.paths)
  }

  /** Patterns without a relation to what is in the BLE may be forbidden. */
  predicate Forbids(sc: Scale, cand: seq<nat>) { !Seeding(sc) && sc.forbid && Weight(sc, cand).average == 0.0 }

  /** Equal weights are decided by the path weight, but not for a seed or an own weight of zero. */
  predicate TiesCount(sc: Scale) { Weight(sc, []).average != 0.0 && !Seeding(sc) }

  /** A pattern with attraction a takes the place of best. */
  predicate Displaces(sc: Scale, a: Attraction, best: Attraction) {
    best.average < a.average || (best.average == a.average && TiesCount(sc) && a.paths >= best.paths)
  }

  /** It would not, or is as good. */
  predicate NotBetter(sc: Scale, a: Attraction, best: Attraction) {
    a.average < best.average || (a.average == best.average && (TiesCount(sc) ==> a.paths <= best.paths))
  }

  /** What has been picked so far; nothing stands for an average of -1. */
  function Standing(sc: Scale, members: seq<nat>): Attraction {
    if members == [] then Attraction(-1.0, 0.0) else Score(sc, members)
  }

  lemma Displaced(sc: Scale, a: Attraction, best: Attraction)
    ensures !Displaces(sc, a, best) ==> NotBetter(sc, a, best)
    ensures NotBetter(sc, a, a)
    ensures Displaces(sc, a, best) ==> forall c :: NotBetter(sc, c, best) ==> NotBetter(sc, c, a)
  {
  }

  /** The pattern of size t at the end of all: weighed, and flagged exactly if it was or is forbidden; not
      better than the choice if it is not flagged. */
  ghost predicate Weighed(sc: Scale, was: seq<bool>, row: seq<bool>, all: seq<nat>, t: nat, best: Attraction)
    requires 1 <= t <= |all| && t <= |was| == |row|
  {
    var cand := all[|all| - t..];
    (row[t - 1] <==> was[t - 1] || Forbids(sc, cand)) && (row[t - 1] || NotBetter(sc, Score(sc, cand), best))
  }

  /** Of the sizes up to top those above low have been weighed; all other flags are as they were. */
  ghost predicate WeighedDown(sc: Scale, was: seq<bool>, row: seq<bool>, all: seq<nat>, top: nat, low: nat,
      best: Attraction)
    requires low <= top <= |all| <= |was| == |row|
  {
    && (forall t: nat {:trigger Weighed(sc, was, row, all, t, best)} :: low < t <= top ==>
      Weighed(sc, was, row, all, t, best))
    && (forall t: nat {:trigger row[t]} :: t < |row| && (t < low || top <= t) ==> row[t] == was[t])
  }

  lemma WeighedLater(sc: Scale, was: seq<bool>, row: seq<bool>, all: seq<nat>, top: nat, low: nat, best: Attraction,
      now: Attraction)
    requires low <= top <= |all| <= |was| == |row| && WeighedDown(sc, was, row, all, top, low, best)
    requires forall c :: NotBetter(sc, c, best) ==> NotBetter(sc, c, now)
    ensures WeighedDown(sc, was, row, all, top, low, now)
  {
    hide NotBetter, Score, Forbids;
    forall t: nat | low < t <= top ensures Weighed(sc, was, row, all, t, now) {
      assert Weighed(sc, was, row, all, t, best);
    }
  }

  /** One more size: it was flagged before, is forbidden now, or has been compared with the choice. */
  lemma WeighedNext(sc: Scale, was: seq<bool>, row: seq<bool>, row': seq<bool>, all: seq<nat>, top: nat, low: nat,
      best: Attraction)
    requires 0 < low <= top <= |all| <= |was| == |row| == |row'| && WeighedDown(sc, was, row, all, top, low, best)
    requires var cand := all[|all| - low..];
      row' == if !was[low - 1] && Forbids(sc, cand) then row[low - 1 := true] else row
    requires was[low - 1] || Forbids(sc, all[|all| - low..]) || NotBetter(sc, Score(sc, all[|all| - low..]), best)
    ensures WeighedDown(sc, was, row', all, top, low - 1, best)
  {
    hide NotBetter, Score, Forbids;
    assert row[low - 1] == was[low - 1];
    forall t: nat | low - 1 < t <= top ensures Weighed(sc, was, row', all, t, best) {
      if t != low {
        assert Weighed(sc, was, row, all, t, best);
      }
    }
  }
}
