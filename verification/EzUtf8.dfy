/** The UTF-8 bytes that ezxml writes for a number, by counting its bits, against the table of
    section 3 of RFC 3629. Shifts and masks are written as products, quotients and remainders. */
module EzUtf8 {
  import opened Seqs

  type Byte = x: int | 0 <= x < 256

  function Pow2(n: nat): (r: nat)
    ensures r > 0
  {
    if n == 0 then 1 else 2 * Pow2(n - 1)
  }

  /** 64 to the n: a shift by 6 * n bits. */
  function Pow64(n: nat): (r: nat)
    ensures r > 0
  {
    if n == 0 then 1 else 64 * Pow64(n - 1)
  }

  /** The loop that counts bits: for (b = 0, d = c; d; d /= 2) b++. */
  function Bits(c: nat): nat {
    if c == 0 then 0 else 1 + Bits(c / 2)
  }

  lemma {:induction false} BitsExactly(c: nat, k: nat)
    requires 0 < k && Pow2(k - 1) <= c < Pow2(k)
    ensures Bits(c) == k
  {
    if k > 1 {
      BitsExactly(c / 2, k - 1);
    } else {
      assert Bits(c / 2) == 0;
    }
  }

  /** The number of continuation bytes, from the number of bits. */
  function PayloadCount(c: nat): int {
    (Bits(c) - 2) / 5
  }

  /** (bits - 2) / 5 is the number of continuation bytes the standard prescribes, up to 31 bits. */
  lemma PayloadCountIsRight(c: nat)
    requires 0x80 <= c < 0x8000_0000
    ensures PayloadCount(c) == if c < 0x800 then 1 else if c < 0x1_0000 then 2 else if c < 0x20_0000 then 3
      else if c < 0x400_0000 then 4 else 5
  {
    hide Pow2, Bits;
    PowersUpTo31();
    var k := BitLength(c, 31);
    BitsExactly(c, k);
    if k <= 7 { PowGrows(k, 7); }
    if k <= 11 { PowGrows(k, 11); } else { PowGrows(11, k - 1); }
    if k <= 16 { PowGrows(k, 16); } else { PowGrows(16, k - 1); }
    if k <= 21 { PowGrows(k, 21); } else { PowGrows(21, k - 1); }
    if k <= 26 { PowGrows(k, 26); } else { PowGrows(26, k - 1); }
  }

  lemma PowersUpTo31()
    ensures Pow2(7) == 0x80 && Pow2(11) == 0x800 && Pow2(16) == 0x1_0000 && Pow2(21) == 0x20_0000
    ensures Pow2(26) == 0x400_0000 && Pow2(31) == 0x8000_0000
  {
    assert Pow2(5) == 32;
    PowAdds(5, 2);
    PowAdds(5, 6);
    PowAdds(11, 5);
    PowAdds(16, 5);
    PowAdds(21, 5);
    PowAdds(26, 5);
    assert Pow2(2) == 4 && Pow2(6) == 64;
  }

  lemma {:induction false} PowAdds(m: nat, n: nat)
    ensures Pow2(m + n) == Pow2(m) * Pow2(n)
  {
    if n > 0 {
      PowAdds(m, n - 1);
    }
  }

  lemma {:induction false} PowGrows(m: nat, n: nat)
    requires m <= n
    ensures Pow2(m) <= Pow2(n)
  {
    if m < n {
      PowGrows(m, n - 1);
    }
  }

  lemma {:induction false} BitLength(c: nat, n: nat) returns (k: nat)
    requires 0 < c < Pow2(n)
    ensures 0 < k <= n && Pow2(k - 1) <= c < Pow2(k)
  {
    if Pow2(n - 1) <= c {
      k := n;
    } else {
      k := BitLength(c, n - 1);
    }
  }

  /** The head byte: b + 1 one bits and a zero on top of what is left of c; the operands of the
      source's | share no bit. A shift by a negative count is taken as zero. */
  function Head(c: nat, b: nat): Byte {
    (0xFF * (if b <= 7 then Pow2(7 - b) else 0) + c / Pow64(b)) % 256
  }

  /** The loop over the continuation bytes, six bits each, highest first. */
  function Payload(c: nat, b: nat): seq<Byte> {
    if b == 0 then [] else [0x80 + c / Pow64(b - 1) % 64] + Payload(c, b - 1)
  }

  /** What the code writes for the number c. */
  function Written(c: nat): seq<Byte> {
    if c < 0x80 then [c] else [Head(c, MaxZero(PayloadCount(c)))] + Payload(c, MaxZero(PayloadCount(c)))
  }

  function MaxZero(x: int): nat { if x < 0 then 0 else x }

  /** Section 3 of RFC 3629. */
  function Standard(c: nat): seq<Byte>
    requires c < 0x11_0000
  {
    if c < 0x80 then [c]
    else if c < 0x800 then [0xC0 + c / 0x40, 0x80 + c % 0x40]
    else if c < 0x1_0000 then [0xE0 + c / 0x1000, 0x80 + c / 0x40 % 0x40, 0x80 + c % 0x40]
    else [0xF0 + c / 0x4_0000, 0x80 + c / 0x1000 % 0x40, 0x80 + c / 0x40 % 0x40, 0x80 + c % 0x40]
  }

  lemma PayloadIs(c: nat)
    ensures Payload(c, 1) == [0x80 + c % 0x40]
    ensures Payload(c, 2) == [0x80 + c / 0x40 % 0x40, 0x80 + c % 0x40]
    ensures Payload(c, 3) == [0x80 + c / 0x1000 % 0x40, 0x80 + c / 0x40 % 0x40, 0x80 + c % 0x40]
  {
    assert Pow64(0) == 1 && Pow64(1) == 64 && Pow64(2) == 4096;
    assert Payload(c, 0) == [];
  }

  lemma HeadIs(c: nat)
    ensures c < 0x800 ==> Head(c, 1) == 0xC0 + c / 0x40
    ensures c < 0x1_0000 ==> Head(c, 2) == 0xE0 + c / 0x1000
    ensures c < 0x20_0000 ==> Head(c, 3) == 0xF0 + c / 0x4_0000
  {
    assert Pow64(0) == 1 && Pow64(1) == 64 && Pow64(2) == 4096 && Pow64(3) == 0x4_0000;
    assert Pow2(0) == 1 && Pow2(2) == 4 && Pow2(4) == 16 && Pow2(5) == 32 && Pow2(6) == 64;
  }

  /** The bit-counting formula writes exactly the standard bytes of every Unicode code point. */
  lemma WrittenIsStandard(c: nat)
    requires c < 0x11_0000
    ensures Written(c) == Standard(c)
  {
    hide Head, Payload, PayloadCount, Bits;
    if c >= 0x80 {
      PayloadCountIsRight(c);
      PayloadIs(c);
      HeadIs(c);
    }
  }

  // ----- reading it back

  predicate Tail(x: Byte) { 0x80 <= x < 0xC0 }

  /** A code point and its length in bytes. */
  datatype Point = Point(code: nat, len: nat)

  /** The first code point of a UTF-8 string. */
  function First(s: seq<Byte>): (r: Option<Point>)
    ensures r.Some? ==> 0 < r.value.len <= |s|
  {
    if s == [] then None
    else if s[0] < 0x80 then Some(Point(s[0], 1))
    else if 0xC0 <= s[0] < 0xE0 then
      if |s| >= 2 && Tail(s[1]) then Some(Point(Sum(s[0] - 0xC0, s[1], 0x80, 0x80, 1), 2)) else None
    else if 0xE0 <= s[0] < 0xF0 then
      if |s| >= 3 && Tail(s[1]) && Tail(s[2]) then Some(Point(Sum(s[0] - 0xE0, s[1], s[2], 0x80, 2), 3)) else None
    else if 0xF0 <= s[0] < 0xF8 then
      if |s| >= 4 && Tail(s[1]) && Tail(s[2]) && Tail(s[3]) then Some(Point(Sum(s[0] - 0xF0, s[1], s[2], s[3], 3), 4))
        else None
    else None
  }

  /** The bits of the head and of n continuation bytes put together. */
  function Sum(head: int, x: int, y: int, z: int, n: nat): nat
    requires head >= 0 && x >= 0x80 && y >= 0x80 && z >= 0x80
  {
    if n == 1 then head * 0x40 + (x - 0x80)
    else if n == 2 then head * 0x1000 + (x - 0x80) * 0x40 + (y - 0x80)
    else head * 0x4_0000 + (x - 0x80) * 0x1000 + (y - 0x80) * 0x40 + (z - 0x80)
  }

  function Read(s: seq<Byte>): Option<seq<nat>>
    decreases |s|
  {
    if s == [] then Some([])
    else match First(s)
      case None => None
      case Some(p) =>
        match Read(s[p.len..])
        case None => None
        case Some(rest) => Some([p.code] + rest)
  }

  lemma FirstOfStandard(c: nat, rest: seq<Byte>)
    requires c < 0x11_0000
    ensures First(Standard(c) + rest) == Some(Point(c, |Standard(c)|))
  {
    var s := Standard(c) + rest;
    assert forall i :: 0 <= i < |Standard(c)| ==> s[i] == Standard(c)[i];
    Digits64(c);
  }

  lemma Digits64(c: nat)
    ensures c == c / 0x40 * 0x40 + c % 0x40
    ensures c == c / 0x1000 * 0x1000 + c / 0x40 % 0x40 * 0x40 + c % 0x40
    ensures c == c / 0x4_0000 * 0x4_0000 + c / 0x1000 % 0x40 * 0x1000 + c / 0x40 % 0x40 * 0x40 + c % 0x40
  {
    assert c / 0x1000 == c / 0x40 / 0x40;
    assert c / 0x4_0000 == c / 0x1000 / 0x40;
  }

  function WriteAll(v: seq<nat>): seq<Byte> {
    if v == [] then [] else Written(v[0]) + WriteAll(v[1..])
  }

  /** Reading what was written gives the code points back, so nothing is lost or confused. */
  lemma {:induction false} ReadWritten(v: seq<nat>)
    requires forall i :: 0 <= i < |v| ==> v[i] < 0x11_0000
    ensures Read(WriteAll(v)) == Some(v)
  {
    hide Standard, Written, First;
    if v != [] {
      WrittenIsStandard(v[0]);
      ReadWritten(v[1..]);
      FirstOfStandard(v[0], WriteAll(v[1..]));
      var s := WriteAll(v);
      assert s[|Standard(v[0])|..] == WriteAll(v[1..]);
      assert v == [v[0]] + v[1..];
    }
  }

  lemma WrittenFew(c: nat)
    requires c < 0x80
    ensures Written(c) == [c]
  {
  }

  lemma WrittenMany(c: nat)
    requires c >= 0x80
    ensures Bits(c) >= 2
    ensures var b := (Bits(c) - 2) / 5; b >= 0 && Written(c) == [Head(c, b)] + Payload(c, b)
  {
    hide Head, Payload;
    assert Bits(c / 2) == 1 + Bits(c / 2 / 2);
  }

  lemma BitsNext(d: nat)
    ensures Bits(d) == if d == 0 then 0 else 1 + Bits(d / 2)
  {
  }

  lemma PayloadNext(u: seq<Byte>, c: nat, b: nat)
    ensures u + Payload(c, b) == if b == 0 then u else (u + [0x80 + c / Pow64(b - 1) % 64]) + Payload(c, b - 1)
  {
    if b > 0 {
      hide *;
      PayloadUnfold(c, b);
    }
  }

  lemma PayloadUnfold(c: nat, b: nat)
    requires b > 0
    ensures Payload(c, b) == [0x80 + c / Pow64(b - 1) % 64] + Payload(c, b - 1)
  {
  }

  /** The statements that append one number to the output buffer. */
  method WriteNumber(u0: seq<Byte>, c: nat) returns (u: seq<Byte>)
    ensures u == u0 + Written(c)
  {
    hide Written, Payload, Bits, Head, Pow64;
    u := u0;
    if c < 0x80 {
      WrittenFew(c);
      u := u + [c];
    } else {
      WrittenMany(c);
      var b, d := 0, c;
      while d != 0
        invariant b + Bits(d) == Bits(c)
      {
        BitsNext(d);
        d := d / 2;
        b := b + 1;
      }
      BitsNext(d);
      b := (b - 2) / 5;
      u := u + [Head(c, b)];
      assert u + Payload(c, b) == u0 + Written(c);
      while b != 0
        invariant 0 <= b && u + Payload(c, b) == u0 + Written(c)
        decreases b
      {
        PayloadNext(u, c, b);
        b := b - 1;
        u := u + [0x80 + c / Pow64(b) % 64];
      }
      PayloadNext(u, c, b);
    }
  }
}
