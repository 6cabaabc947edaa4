/** Optional values and the few facts about sequences that every part of the model uses. */
module Seqs {
  datatype Option<+T> = None | Some(value: T)

  /** The position of the first x in s, or -1: the result of every search loop of the packer. */
  function IndexOf<T(==)>(s: seq<T>, x: T): (r: int)
    ensures -1 <= r < |s|
    ensures r == -1 <==> x !in s
    ensures r >= 0 ==> s[r] == x && x !in s[..r]
  {
    if s == [] then -1
    else if s[0] == x then 0
    else
      var r := IndexOf(s[1..], x);
      if r == -1 then -1
      else
        assert s[..r + 1] == [s[0]] + s[1..][..r];
        r + 1
  }

  lemma {:induction false} IndexOfFirst<T>(s: seq<T>, n: nat, x: T)
    requires n < |s| && s[n] == x && forall j :: 0 <= j < n ==> s[j] != x
    ensures IndexOf(s, x) == n
  {
    if n > 0 {
      IndexOfFirst(s[1..], n - 1, x);
    }
  }

  ghost predicate Distinct<T>(s: seq<T>) {
    forall i, j :: 0 <= i < j < |s| ==> s[i] != s[j]
  }

  /** How often x occurs in s. */
  function Count<T(==)>(s: seq<T>, x: T): nat {
    if s == [] then 0 else (if s[0] == x then 1 else 0) + Count(s[1..], x)
  }

  lemma {:induction false} CountAppend<T>(s: seq<T>, t: seq<T>, x: T)
    ensures Count(s + t, x) == Count(s, x) + Count(t, x)
  {
    if s == [] {
      assert s + t == t;
    } else {
      assert (s + t)[1..] == s[1..] + t;
      CountAppend(s[1..], t, x);
    }
  }

  lemma {:induction false} CountPositive<T>(s: seq<T>, x: T)
    ensures Count(s, x) > 0 <==> x in s
  {
    if s != [] {
      CountPositive(s[1..], x);
      assert s == [s[0]] + s[1..];
    }
  }

  lemma {:induction false} CountUpdate<T>(s: seq<T>, i: nat, y: T, x: T)
    requires i < |s|
    ensures Count(s[i := y], x) + (if s[i] == x then 1 else 0) == Count(s, x) + (if y == x then 1 else 0)
  {
    assert s == s[..i] + [s[i]] + s[i + 1..];
    assert s[i := y] == s[..i] + [y] + s[i + 1..];
    CountAppend(s[..i] + [s[i]], s[i + 1..], x);
    CountAppend(s[..i], [s[i]], x);
    CountAppend(s[..i] + [y], s[i + 1..], x);
    CountAppend(s[..i], [y], x);
    assert Count([s[i]], x) == if s[i] == x then 1 else 0;
    assert Count([y], x) == if y == x then 1 else 0;
  }

  lemma {:induction false} CountDistinct<T>(s: seq<T>, x: T)
    requires Distinct(s)
    ensures Count(s, x) == if x in s then 1 else 0
  {
    if s != [] {
      CountDistinct(s[1..], x);
      assert s == [s[0]] + s[1..];
      assert forall j :: 1 <= j < |s| ==> s[0] != s[j];
    }
  }

  lemma {:induction false} CountOneTwice<T>(s: seq<T>, i: nat, j: nat)
    requires i < j < |s| && s[i] == s[j]
    ensures Count(s, s[i]) >= 2
  {
    assert s == s[..j] + s[j..];
    CountAppend(s[..j], s[j..], s[i]);
    CountPositive(s[..j], s[i]);
    CountPositive(s[j..], s[i]);
    assert s[..j][i] == s[i] && s[j..][0] == s[j];
  }
}
