/** ezxml_str2utf8: UTF-16 with a byte order mark to UTF-8. */
module EzUtf16 {
  import opened Seqs
  import opened EzUtf8

  /** Section 2.1 of RFC 2781: one unit, or a surrogate pair. */
  function Units(c: nat): seq<nat>
    requires c < 0x11_0000
    ensures forall i :: 0 <= i < |Units(c)| ==> Units(c)[i] < 0x1_0000
  {
    if c < 0x1_0000 then [c] else [0xD800 + (c - 0x1_0000) / 0x400, 0xDC00 + (c - 0x1_0000) % 0x400]
  }

  /** A Unicode scalar value: a code point that is no surrogate. */
  predicate Scalar(c: nat) { c < 0xD800 || 0xE000 <= c < 0x11_0000 }

  function UnitBytes(u: nat, be: bool): seq<Byte>
    requires u < 0x1_0000
  {
    if be then [u / 0x100, u % 0x100] else [u % 0x100, u / 0x100]
  }

  function CodeBytes(c: nat, be: bool): seq<Byte>
    requires c < 0x11_0000
  {
    if c < 0x1_0000 then UnitBytes(c, be) else UnitBytes(Units(c)[0], be) + UnitBytes(Units(c)[1], be)
  }

  function Encoded(v: seq<nat>, be: bool): seq<Byte>
    requires forall i :: 0 <= i < |v| ==> Scalar(v[i])
  {
    if v == [] then [] else assert Scalar(v[0]); CodeBytes(v[0], be) + Encoded(v[1..], be)
  }

  function Mark(be: bool): seq<Byte> { if be then [0xFE, 0xFF] else [0xFF, 0xFE] }

  // ----- what the converter does

  /** Two bytes, each masked with 0xFF, put together. */
  function Pair(high: nat, low: nat): nat { high * 0x100 + low }

  function UnitAt(s: seq<Byte>, i: nat, be: bool): nat
    requires i + 1 < |s|
  {
    if be then Pair(s[i], s[i + 1]) else Pair(s[i + 1], s[i])
  }

  /** A unit between D800 and DFFF is taken for a high surrogate, whatever follows for a low one. */
  predicate Surrogate(c: nat) { 0xD800 <= c <= 0xDFFF }

  function Joined(c: nat, d: nat): nat { c % 0x400 * 0x400 + d % 0x400 + 0x1_0000 }

  /** What the loop still writes when it stands at position sl. */
  function From(s: seq<Byte>, sl: nat, be: bool): seq<Byte>
    decreases |s| - sl
  {
    if sl + 1 >= |s| then []
    else
      var c := UnitAt(s, sl, be);
      if Surrogate(c) && sl + 3 < |s| then Written(Joined(c, UnitAt(s, sl + 2, be))) + From(s, sl + 4, be)
      else if Surrogate(c) then Written(c) + From(s, sl + 4, be)
      else Written(c) + From(s, sl + 2, be)
  }

  /** None when the first byte is no byte order mark: no conversion is needed. */
  function Converted(s: seq<Byte>): Option<seq<Byte>>
    requires s != []
  {
    if s[0] == 0xFE then Some(From(s, 2, true)) else if s[0] == 0xFF then Some(From(s, 2, false)) else None
  }

  /** One turn of the loop, in terms of what is still to be written. */
  function Next(s: seq<Byte>, sl: nat, be: bool): (r: (nat, nat))
    requires sl + 1 < |s|
    ensures From(s, sl, be) == Written(r.0) + From(s, r.1, be) && r.1 > sl
  {
    var c := UnitAt(s, sl, be);
    if !Surrogate(c) then (c, sl + 2)
    else if sl + 3 < |s| then (Joined(c, UnitAt(s, sl + 2, be)), sl + 4)
    else (c, sl + 4)
  }

  method Str2Utf8(s: seq<Byte>) returns (r: Option<seq<Byte>>)
    requires s != []
    ensures r == Converted(s)
  {
    hide Written, From, Next, Surrogate, Joined;
    if s[0] != 0xFE && s[0] != 0xFF {
      return None;
    }
    var be := s[0] == 0xFE;
    var u: seq<Byte> := [];
    var sl := 2;
    while sl + 1 < |s|
      invariant u + From(s, sl, be) == From(s, 2, be)
      decreases |s| - sl
    {
      ghost var at, done, next := sl, u, Next(s, sl, be);
      NextIs(s, sl, be);
      var c := if be then Pair(s[sl], s[sl + 1]) else Pair(s[sl + 1], s[sl]);
      if c >= 0xD800 && c <= 0xDFFF {
        sl := sl + 2;
        if sl + 1 < |s| {
          var d := if be then Pair(s[sl], s[sl + 1]) else Pair(s[sl + 1], s[sl]);
          c := c % 0x400 * 0x400 + d % 0x400 + 0x1_0000;
        }
      }
      sl := sl + 2;
      assert (c, sl) == next;
      u := WriteNumber(u, c);
      assert done + (Written(c) + From(s, sl, be)) == u + From(s, sl, be);
    }
    NothingLeft(s, sl, be);
    assert u + [] == u;
    r := Some(u);
  }

  /** The number and the new position, as the statements of the loop compute them. */
  lemma NextIs(s: seq<Byte>, sl: nat, be: bool)
    requires sl + 1 < |s|
    ensures var c := if be then Pair(s[sl], s[sl + 1]) else Pair(s[sl + 1], s[sl]);
      Next(s, sl, be) ==
        if !(0xD800 <= c <= 0xDFFF) then (c, sl + 2)
        else if sl + 3 < |s| then
          (c % 0x400 * 0x400 + (if be then Pair(s[sl + 2], s[sl + 3]) else Pair(s[sl + 3], s[sl + 2])) % 0x400
            + 0x1_0000, sl + 4)
        else (c, sl + 4)
  {
    hide From, Pair;
  }

  lemma NothingLeft(s: seq<Byte>, sl: nat, be: bool)
    requires sl + 1 >= |s|
    ensures From(s, sl, be) == []
  {
  }

  // ----- well-formed input

  /** The loop does not look back. */
  lemma {:induction false} FromSuffix(a: seq<Byte>, s: seq<Byte>, sl: nat, be: bool)
    ensures From(a + s, |a| + sl, be) == From(s, sl, be)
    decreases |s| - sl
  {
    hide Written, From, Next, Surrogate, Joined;
    if sl + 1 < |s| {
      SameNext(a, s, sl, be);
      FromSuffix(a, s, Next(s, sl, be).1, be);
    } else {
      NothingLeft(s, sl, be);
      NothingLeft(a + s, |a| + sl, be);
    }
  }

  lemma SameNext(a: seq<Byte>, s: seq<Byte>, sl: nat, be: bool)
    requires sl + 1 < |s|
    ensures Next(a + s, |a| + sl, be) == (Next(s, sl, be).0, |a| + Next(s, sl, be).1)
  {
    hide Written, From, Surrogate, Joined;
    assert UnitAt(a + s, |a| + sl, be) == UnitAt(s, sl, be);
    if sl + 3 < |s| {
      assert UnitAt(a + s, |a| + sl + 2, be) == UnitAt(s, sl + 2, be);
    }
  }

  lemma PairJoins(c: nat)
    requires 0x1_0000 <= c < 0x11_0000
    ensures Surrogate(Units(c)[0]) && Joined(Units(c)[0], Units(c)[1]) == c
  {
    var x := c - 0x1_0000;
    assert x == x / 0x400 * 0x400 + x % 0x400;
    assert (0xD800 + x / 0x400) % 0x400 == x / 0x400;
    assert (0xDC00 + x % 0x400) % 0x400 == x % 0x400;
  }

  lemma OneScalar(c: nat, rest: seq<Byte>, be: bool)
    requires Scalar(c)
    ensures From(CodeBytes(c, be) + rest, 0, be) == Written(c) + From(rest, 0, be)
  {
    hide Written;
    var a := CodeBytes(c, be);
    var s := a + rest;
    if c < 0x1_0000 {
      assert UnitAt(s, 0, be) == c;
    } else {
      PairJoins(c);
      assert UnitAt(s, 0, be) == Units(c)[0] && UnitAt(s, 2, be) == Units(c)[1];
    }
    FromSuffix(a, rest, 0, be);
  }

  lemma {:induction false} FromEncoded(v: seq<nat>, be: bool)
    requires forall i :: 0 <= i < |v| ==> Scalar(v[i])
    ensures From(Encoded(v, be), 0, be) == WriteAll(v)
  {
    hide Written, CodeBytes;
    if v != [] {
      FromEncoded(v[1..], be);
      OneScalar(v[0], Encoded(v[1..], be), be);
    }
  }

  function StandardAll(v: seq<nat>): seq<Byte>
    requires forall i :: 0 <= i < |v| ==> v[i] < 0x11_0000
  {
    if v == [] then [] else Standard(v[0]) + StandardAll(v[1..])
  }

  lemma {:induction false} WrittenAllIsStandard(v: seq<nat>)
    requires forall i :: 0 <= i < |v| ==> v[i] < 0x11_0000
    ensures WriteAll(v) == StandardAll(v)
  {
    hide Written, Standard;
    if v != [] {
      WrittenIsStandard(v[0]);
      WrittenAllIsStandard(v[1..]);
    }
  }

  /** Well-formed UTF-16 of either byte order becomes the standard UTF-8 of the same scalar values,
      and reading that gives them back. */
  lemma ConvertsEveryText(v: seq<nat>, be: bool)
    requires forall i :: 0 <= i < |v| ==> Scalar(v[i])
    ensures Converted(Mark(be) + Encoded(v, be)) == Some(StandardAll(v))
    ensures Read(StandardAll(v)) == Some(v)
  {
    hide Written, Standard, CodeBytes, From, Read, Encoded, WriteAll, StandardAll;
    var s := Mark(be) + Encoded(v, be);
    assert s[0] == Mark(be)[0];
    FromSuffix(Mark(be), Encoded(v, be), 0, be);
    FromEncoded(v, be);
    WrittenAllIsStandard(v);
    ReadWritten(v);
  }

  /** No surrogate unit is refused, a low one included, and no partner is looked at: the next unit is
      swallowed as its low half, whatever it is. */
  lemma SurrogateSwallows(c: nat, d: nat, rest: seq<Byte>, be: bool)
    requires Surrogate(c) && d < 0x1_0000
    ensures From(UnitBytes(c, be) + UnitBytes(d, be) + rest, 0, be)
      == Written(0x1_0000 + c % 0x400 * 0x400 + d % 0x400) + From(rest, 0, be)
  {
    hide Written;
    var a := UnitBytes(c, be) + UnitBytes(d, be);
    var s := a + rest;
    assert UnitAt(s, 0, be) == c && UnitAt(s, 2, be) == d;
    FromSuffix(a, rest, 0, be);
  }

  /** With no further unit, a single byte at most, the surrogate itself is written out. */
  lemma LastSurrogate(c: nat, tail: seq<Byte>, be: bool)
    requires Surrogate(c) && |tail| <= 1
    ensures From(UnitBytes(c, be) + tail, 0, be) == Written(c)
  {
    hide Written;
    var s := UnitBytes(c, be) + tail;
    assert UnitAt(s, 0, be) == c;
    NothingLeft(s, 4, be);
  }

  /** So a broken pair is read as the pair with the same low ten bits in both halves. */
  lemma SwallowsLikeAPair(c: nat, d: nat, be: bool)
    requires Surrogate(c) && d < 0x1_0000
    ensures var low := 0xDC00 + d % 0x400;
      var high := 0xD800 + c % 0x400;
      Surrogate(high)
        && From(UnitBytes(c, be) + UnitBytes(d, be), 0, be) == From(UnitBytes(high, be) + UnitBytes(low, be), 0, be)
  {
    hide Written;
    var low, high := 0xDC00 + d % 0x400, 0xD800 + c % 0x400;
    assert high % 0x400 == c % 0x400 && low % 0x400 == d % 0x400;
    assert UnitBytes(c, be) + UnitBytes(d, be) + [] == UnitBytes(c, be) + UnitBytes(d, be);
    assert UnitBytes(high, be) + UnitBytes(low, be) + [] == UnitBytes(high, be) + UnitBytes(low, be);
    SurrogateSwallows(c, d, [], be);
    SurrogateSwallows(high, low, [], be);
  }
}
