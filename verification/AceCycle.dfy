/** The search for latches on cycles in ACE 2 (cycle.c): a depth-first search with a flag per pass. */
module AceCycle {
  import opened Seqs

  ghost predicate Wired(fanins: seq<seq<nat>>) {
    forall n, i :: 0 <= n < |fanins| && 0 <= i < |fanins[n]| ==> fanins[n][i] < |fanins|
  }

  /** A path of at least one edge from a to b, each object a fanin of the one before. */
  ghost predicate FaninPath(fanins: seq<seq<nat>>, p: seq<nat>, a: nat, b: nat) {
    && |p| >= 2 && p[0] == a && p[|p| - 1] == b
    && (forall k :: 0 <= k < |p| ==> p[k] < |fanins|)
    && (forall k :: 0 <= k < |p| - 1 ==> p[k + 1] in fanins[p[k]])
  }

  ghost predicate Reaches(fanins: seq<seq<nat>>, a: nat, b: nat) {
    exists p :: FaninPath(fanins, p, a, b)
  }

  lemma ReachesStep(fanins: seq<seq<nat>>, a: nat, m: nat, b: nat)
    requires Wired(fanins) && a < |fanins| && m in fanins[a] && (m == b || Reaches(fanins, m, b))
    ensures Reaches(fanins, a, b)
  {
    if m == b {
      assert FaninPath(fanins, [a, b], a, b);
    } else {
      var p :| FaninPath(fanins, p, m, b);
      var q := [a] + p;
      assert forall k :: 0 <= k < |p| ==> q[k + 1] == p[k];
      forall k | 0 <= k < |q| - 1 ensures q[k + 1] in fanins[q[k]] {
        if k > 0 {
          assert q[k] == p[k - 1] && q[k + 1] == p[k];
        }
      }
      assert FaninPath(fanins, q, a, b);
    }
  }

  /** Objects the current pass has not flagged. */
  ghost function Unflagged(flags: seq<int>, pass: int): set<nat> {
    set n: nat | n < |flags| && flags[n] != pass
  }

  lemma FlagFewer(flags: seq<int>, n: nat, pass: int)
    requires n < |flags| && flags[n] != pass
    ensures Unflagged(flags[n := pass], pass) < Unflagged(flags, pass)
  {
    assert n in Unflagged(flags, pass);
  }

  lemma GrewFewer(before: seq<int>, after: seq<int>, pass: int)
    requires Grew(before, after, pass)
    ensures Unflagged(after, pass) <= Unflagged(before, pass)
  {
  }

  /** Flags change only to the number of the pass. */
  ghost predicate Grew(before: seq<int>, after: seq<int>, pass: int) {
    |before| == |after| && forall n :: 0 <= n < |after| ==> after[n] == before[n] || after[n] == pass
  }

  /** Every fanin of n is flagged and none is the target. */
  ghost predicate Explored(fanins: seq<seq<nat>>, flags: seq<int>, pass: int, target: nat, n: nat)
    requires Wired(fanins) && |flags| == |fanins| && n < |fanins|
  {
    forall i :: 0 <= i < |fanins[n]| ==> fanins[n][i] != target && flags[fanins[n][i]] == pass
  }

  /** Everything flagged since before, but start, is explored. */
  ghost predicate AllExplored(fanins: seq<seq<nat>>, before: seq<int>, after: seq<int>, pass: int, target: nat,
      start: set<nat>)
    requires Wired(fanins) && |before| == |after| == |fanins|
  {
    forall n: nat {:trigger after[n]} :: n < |fanins| && before[n] != pass && after[n] == pass && n !in start ==>
      Explored(fanins, after, pass, target, n)
  }

  /** Explored objects stay explored while flags grow. */
  lemma ExploredStays(fanins: seq<seq<nat>>, a: seq<int>, b: seq<int>, c: seq<int>, pass: int, target: nat,
      start: set<nat>)
    requires Wired(fanins) && |a| == |b| == |c| == |fanins| && Grew(a, b, pass) && Grew(b, c, pass)
    requires AllExplored(fanins, a, b, pass, target, start) && AllExplored(fanins, b, c, pass, target, {})
    ensures Grew(a, c, pass) && AllExplored(fanins, a, c, pass, target, start)
  {
    forall n: nat | n < |fanins| && a[n] != pass && c[n] == pass && n !in start
      ensures Explored(fanins, c, pass, target, n)
    {
      if b[n] == pass {
        assert Explored(fanins, b, pass, target, n);
        forall i | 0 <= i < |fanins[n]| ensures c[fanins[n][i]] == pass {
          assert b[fanins[n][i]] == pass;
        }
      }
    }
  }

  /** An explored set that holds the start of a path holds its end, and never meets the target. */
  lemma {:induction false} NeverReaches(fanins: seq<seq<nat>>, before: seq<int>, flags: seq<int>, pass: int,
      target: nat, p: seq<nat>, a: nat)
    requires Wired(fanins) && |before| == |flags| == |fanins| && (forall n :: 0 <= n < |before| ==> before[n] != pass)
    requires AllExplored(fanins, before, flags, pass, target, {})
    requires FaninPath(fanins, p, a, target) && flags[a] == pass
    ensures false
    decreases |p|
  {
    assert Explored(fanins, flags, pass, target, a);
    assert p[1] in fanins[p[0]];
    var i :| 0 <= i < |fanins[a]| && fanins[a][i] == p[1];
    if |p| > 2 {
      var q := p[1..];
      forall k | 0 <= k < |q| - 1 ensures q[k + 1] in fanins[q[k]] {
        assert p[k + 2] in fanins[p[k + 1]];
      }
      NeverReaches(fanins, before, flags, pass, target, q, p[1]);
    }
  }

  /** The latches that reach themselves, in their order. */
  ghost function OnCycles(fanins: seq<seq<nat>>, latches: seq<nat>): seq<nat> {
    if latches == [] then []
    else
      var n := |latches| - 1;
      OnCycles(fanins, latches[..n]) + (if Reaches(fanins, latches[n], latches[n]) then [latches[n]] else [])
  }

  class CycleSearch {
    const fanins: seq<seq<nat>>
    const flag: array<int>

    constructor (fanins: seq<seq<nat>>)
      ensures this.fanins == fanins && fresh(flag) && flag.Length == |fanins|
    {
      this.fanins := fanins;
      flag := new int[|fanins|](i => -1);
    }

    /** in_cycle */
    method InCycle(target: nat, start: nat, pass: int) returns (found: bool)
      requires Wired(fanins) && flag.Length == |fanins| && start < |fanins| && target < |fanins|
      modifies flag
      ensures Grew(old(flag[..]), flag[..], pass)
      ensures found ==> Reaches(fanins, start, target)
      ensures !found ==> flag[start] == pass && AllExplored(fanins, old(flag[..]), flag[..], pass, target, {})
      decreases Unflagged(flag[..], pass)
    {
      hide Reaches, Unflagged, Explored;
      if flag[start] == pass {
        return false;
      }
      ghost var before := flag[..];
      FlagFewer(before, start, pass);
      flag[start] := pass;
      assert flag[..] == before[start := pass];
      for i := 0 to |fanins[start]|
        invariant Grew(before, flag[..], pass) && flag[start] == pass
        invariant Unflagged(flag[..], pass) < Unflagged(before, pass)
        invariant AllExplored(fanins, before, flag[..], pass, target, {start})
        invariant forall k :: 0 <= k < i ==> fanins[start][k] != target && flag[fanins[start][k]] == pass
      {
        var m := fanins[start][i];
        if m == target {
          ReachesStep(fanins, start, m, target);
          return true;
        }
        ghost var mid := flag[..];
        var below := InCycle(target, m, pass);
        GrewFewer(mid, flag[..], pass);
        if below {
          ReachesStep(fanins, start, m, target);
          return true;
        }
        ExploredStays(fanins, before, mid, flag[..], pass, target, {start});
        forall k | 0 <= k < i ensures flag[fanins[start][k]] == pass {
          assert mid[fanins[start][k]] == pass;
        }
      }
      StartExplored(fanins, before, flag[..], pass, target, start);
      found := false;
    }

    /** latches_in_cycles: exactly the latches that reach themselves by a non-empty fanin path, in order. */
    method LatchesInCycles(latches: seq<nat>) returns (r: seq<nat>)
      requires Wired(fanins) && flag.Length == |fanins| && forall i :: 0 <= i < |latches| ==> latches[i] < |fanins|
      modifies flag
      ensures r == OnCycles(fanins, latches)
    {
      hide Reaches, AllExplored;
      for i := 0 to flag.Length
        invariant forall k :: 0 <= k < i ==> flag[k] == -1
      {
        flag[i] := -1;
      }
      r := [];
      var pass := 0;
      for i := 0 to |latches|
        invariant pass == i && forall k :: 0 <= k < flag.Length ==> flag[k] < pass
        invariant r == OnCycles(fanins, latches[..i])
      {
        ghost var before := flag[..];
        var found := InCycle(latches[i], latches[i], pass);
        assert latches[..i + 1][..i] == latches[..i];
        if found {
          r := r + [latches[i]];
        } else {
          NotReached(fanins, before, flag[..], pass, latches[i]);
        }
        pass := pass + 1;
      }
      assert latches[..|latches|] == latches;
    }
  }

  lemma StartExplored(fanins: seq<seq<nat>>, before: seq<int>, after: seq<int>, pass: int, target: nat, start: nat)
    requires Wired(fanins) && |before| == |after| == |fanins| && start < |fanins|
    requires AllExplored(fanins, before, after, pass, target, {start})
    requires forall k :: 0 <= k < |fanins[start]| ==> fanins[start][k] != target && after[fanins[start][k]] == pass
    ensures AllExplored(fanins, before, after, pass, target, {})
  {
    assert Explored(fanins, after, pass, target, start);
  }

  lemma NotReached(fanins: seq<seq<nat>>, before: seq<int>, flags: seq<int>, pass: int, l: nat)
    requires Wired(fanins) && |before| == |flags| == |fanins| && l < |fanins|
      && (forall n :: 0 <= n < |before| ==> before[n] != pass)
    requires AllExplored(fanins, before, flags, pass, l, {}) && flags[l] == pass
    ensures !Reaches(fanins, l, l)
  {
    if Reaches(fanins, l, l) {
      var p :| FaninPath(fanins, p, l, l);
      NeverReaches(fanins, before, flags, pass, l, p, l);
    }
  }
}
