/** Entities and character references of ezxml: ezxml_ampencode and ezxml_decode with the default
    entity table. Each char stands for one byte of a C string. */
module EzEntities {
  import opened Seqs
  import opened EzUtf8

  // ----- encoding

  function EncodeChar(c: char, attr: bool): string {
    if c == '&' then "&amp;"
    else if c == '<' then "&lt;"
    else if c == '>' then "&gt;"
    else if c == '"' then if attr then "&quot;" else "\""
    else if c == '\n' then if attr then "&#xA;" else "\n"
    else if c == '\t' then if attr then "&#x9;" else "\t"
    else if c == '\r' then "&#xD;"
    else [c]
  }

  /** Encoding stops at a NUL. */
  function Encode(s: string, attr: bool): string {
    if s == "" || s[0] == '\0' then "" else EncodeChar(s[0], attr) + Encode(s[1..], attr)
  }

  function UpToNul(s: string): string {
    if s == "" || s[0] == '\0' then "" else [s[0]] + UpToNul(s[1..])
  }

  /** The switch over one character. */
  method AppendEncoded(dst0: string, c: char, attr: bool) returns (dst: string)
    ensures dst == dst0 + EncodeChar(c, attr)
  {
    match c {
      case '&' => dst := dst0 + "&amp;";
      case '<' => dst := dst0 + "&lt;";
      case '>' => dst := dst0 + "&gt;";
      case '"' => dst := dst0 + if attr then "&quot;" else "\"";
      case '\n' => dst := dst0 + if attr then "&#xA;" else "\n";
      case '\t' => dst := dst0 + if attr then "&#x9;" else "\t";
      case '\r' => dst := dst0 + "&#xD;";
      case _ => dst := dst0 + [c];
    }
  }

  /** ezxml_ampencode appends to dst. */
  method Ampencode(s: string, dst0: string, attr: bool) returns (dst: string)
    ensures dst == dst0 + Encode(s, attr)
  {
    hide EncodeChar;
    dst := dst0;
    assert s[0..] == s;
    for i := 0 to |s|
      invariant dst + Encode(s[i..], attr) == dst0 + Encode(s, attr)
    {
      ghost var before := dst;
      assert s[i..][1..] == s[i + 1..];
      if s[i] == '\0' {
        assert dst + "" == dst;
        return;
      }
      dst := AppendEncoded(dst, s[i], attr);
      assert before + (EncodeChar(s[i], attr) + Encode(s[i + 1..], attr)) == dst + Encode(s[i + 1..], attr);
    }
    assert dst + "" == dst;
  }

  // ----- strtol

  predicate IsSpace(c: char) {
    c == ' ' || c == '\t' || c == '\n' || c as int == 0x0B || c as int == 0x0C || c == '\r'
  }

  function SkipSpace(s: string): (n: nat)
    ensures n <= |s|
  {
    if s == "" || !IsSpace(s[0]) then 0 else 1 + SkipSpace(s[1..])
  }

  /** The value of a digit, or -1. */
  function Digit(c: char, base: nat): int {
    if '0' <= c <= '9' && c as int - '0' as int < base then c as int - '0' as int
    else if base == 16 && 'a' <= c <= 'f' then c as int - 'a' as int + 10
    else if base == 16 && 'A' <= c <= 'F' then c as int - 'A' as int + 10
    else -1
  }

  /** A number and how many characters it took. */
  datatype Num = Num(value: int, used: nat)

  function Digits(s: string, base: nat, acc: nat): (n: Num)
    ensures n.used <= |s|
  {
    if s == "" || Digit(s[0], base) < 0 then Num(acc, 0)
    else
      var n := Digits(s[1..], base, acc * base + Digit(s[0], base));
      Num(n.value, n.used + 1)
  }

  const LONG_MAX: int := 0x7FFF_FFFF_FFFF_FFFF

  function Clamped(x: int): int {
    if x > LONG_MAX then LONG_MAX else if x < -LONG_MAX - 1 then -LONG_MAX - 1 else x
  }

  predicate HasSign(s: string) { s != "" && (s[0] == '-' || s[0] == '+') }

  predicate HasHexPrefix(s: string) {
    |s| > 2 && s[0] == '0' && (s[1] == 'x' || s[1] == 'X') && Digit(s[2], 16) >= 0
  }

  /** strtol on a 64-bit long; used is 0 when there is no number. */
  function StrToL(s: string, base: nat): (n: Num)
    ensures n.used <= |s|
  {
    var i := SkipSpace(s);
    var j := i + if HasSign(s[i..]) then 1 else 0;
    var k := j + if base == 16 && HasHexPrefix(s[j..]) then 2 else 0;
    var n := Digits(s[k..], base, 0);
    if n.used == 0 then Num(0, 0)
    else Num(Clamped(if HasSign(s[i..]) && s[i] == '-' then -n.value else n.value), k + n.used)
  }

  // ----- decoding

  /** '&' for character content, 'c' for cdata sections, ' ' for attribute values. */
  datatype Mode = Text | Cdata | Attribute

  /** The first pass ends lines with a newline; None when it runs past the terminator. */
  function Lines(s: string): Option<string>
    decreases |s|
  {
    if s == "" then Some("")
    else if s[0] != '\r' then Prepend([s[0]], Lines(s[1..]))
    else
      var rest := if |s| > 1 && s[1] == '\n' then s[2..] else s[1..];
      if rest == "" then None else Prepend("\n", Lines(rest))
  }

  function Prepend(a: string, r: Option<string>): Option<string> {
    if r.Some? then Some(a + r.value) else None
  }

  predicate StartsWith(s: string, p: string) { |p| <= |s| && s[..|p|] == p }

  /** A byte that replaces a reference. */
  datatype Ref = Ref(bytes: string, len: nat)

  function Chars(s: seq<Byte>): string {
    seq(|s|, i requires 0 <= i < |s| => s[i] as char)
  }

  /** The character reference at the start of s, unless it is zero or does not end with ';'. */
  function CharRef(s: string): (r: Option<Ref>)
    ensures r.Some? ==> 0 < r.value.len <= |s|
  {
    if !StartsWith(s, "&#") then None
    else
      var hex := |s| > 2 && s[2] == 'x';
      var off := if hex then 3 else 2;
      var n := StrToL(s[off..], if hex then 16 else 10);
      var e := off + n.used;
      if n.value == 0 || e >= |s| || s[e] != ';' then None
      else Some(Ref(if n.value < 0x80 then [(n.value % 256) as char] else Chars(Written(n.value)), e + 1))
  }

  /** The default entity table of ezxml_new: the replacement for a name, if known. */
  function Entity(s: string): (r: Option<Ref>)
    ensures r.Some? ==> |r.value.bytes| == 5 && r.value.bytes[0] == '&' && r.value.bytes[1] == '#'
    ensures r.Some? ==> forall i :: 1 <= i < 5 ==> r.value.bytes[i] != '&'
    ensures r.Some? ==> 4 <= r.value.len <= |s| && s[1] != '#'
  {
    if s == "" then None
    else if StartsWith(s[1..], "lt;") then Some(Ref("&#60;", 4))
    else if StartsWith(s[1..], "gt;") then Some(Ref("&#62;", 4))
    else if StartsWith(s[1..], "quot;") then Some(Ref("&#34;", 6))
    else if StartsWith(s[1..], "apos;") then Some(Ref("&#39;", 6))
    else if StartsWith(s[1..], "amp;") then Some(Ref("&#38;", 5))
    else None
  }

  /** Ampersands that do not start a character reference. */
  function Plain(s: string): nat {
    if s == "" then 0 else (if s[0] == '&' && !(|s| > 1 && s[1] == '#') then 1 else 0) + Plain(s[1..])
  }

  lemma {:induction false} PlainDrop(s: string, n: nat)
    requires n <= |s|
    ensures Plain(s[n..]) <= Plain(s)
  {
    if n > 0 {
      PlainDrop(s[1..], n - 1);
      assert s[1..][n - 1..] == s[n..];
    }
  }

  lemma {:induction false} PlainAppend(p: string, s: string)
    requires forall i :: 0 <= i < |p| ==> p[i] != '&'
    ensures Plain(p + s) == Plain(s)
  {
    if p == "" {
      assert p + s == s;
    } else {
      assert (p + s)[1..] == p[1..] + s;
      PlainAppend(p[1..], s);
    }
  }

  /** Replacing an entity makes the text longer but leaves fewer plain ampersands. */
  lemma EntityShrinks(s: string)
    requires s != "" && s[0] == '&' && Entity(s).Some?
    ensures var r := Entity(s).value;
      2 * Plain(r.bytes + s[r.len..]) + |r.bytes + s[r.len..]| < 2 * Plain(s) + |s|
  {
    var r := Entity(s).value;
    var t := r.bytes + s[r.len..];
    assert t[1..] == r.bytes[1..] + s[r.len..];
    PlainAppend(r.bytes[1..], s[r.len..]);
    PlainDrop(s[1..], r.len - 1);
    assert s[1..][r.len - 1..] == s[r.len..];
    assert Plain(s) == 1 + Plain(s[1..]);
    assert t[1] == '#' && Plain(t) == Plain(t[1..]);
  }

  function Measure(s: string): nat { 2 * Plain(s) + |s| }

  lemma DropMeasure(s: string, n: nat)
    requires 0 < n <= |s|
    ensures Measure(s[n..]) < Measure(s)
  {
    PlainDrop(s, n);
  }

  /** The second pass from the current position on; what is behind it is final. */
  function DecodeFrom(mode: Mode, s: string): string
    decreases Measure(s)
  {
    if s == "" then ""
    else if mode != Cdata && StartsWith(s, "&#") && CharRef(s).Some? then
      DropMeasure(s, CharRef(s).value.len);
      CharRef(s).value.bytes + DecodeFrom(mode, s[CharRef(s).value.len..])
    else if mode != Cdata && s[0] == '&' && !StartsWith(s, "&#") && Entity(s).Some? then
      EntityShrinks(s);
      DecodeFrom(mode, Entity(s).value.bytes + s[Entity(s).value.len..])
    else
      DropMeasure(s, 1);
      (if mode == Attribute && IsSpace(s[0]) then " " else [s[0]]) + DecodeFrom(mode, s[1..])
  }

  function Decode(mode: Mode, s: string): Option<string> {
    match Lines(s)
    case None => None
    case Some(x) => Some(DecodeFrom(mode, x))
  }

  lemma PrependTwice(a: string, b: string, r: Option<string>)
    ensures Prepend(a, Prepend(b, r)) == Prepend(a + b, r) && Prepend("", r) == r
  {
    if r.Some? {
      assert a + (b + r.value) == (a + b) + r.value && "" + r.value == r.value;
    }
  }

  /** The first pass in the buffer. */
  method EndLines(s0: string) returns (ok: bool, s: string)
    ensures ok <==> Lines(s0).Some?
    ensures ok ==> s == Lines(s0).value
  {
    hide Prepend;
    s := s0;
    var i := 0;
    PrependTwice("", "", Lines(s0));
    assert s[..0] == "" && s[0..] == s;
    while i < |s|
      invariant 0 <= i <= |s| && Lines(s0) == Prepend(s[..i], Lines(s[i..]))
      decreases |s| - i
    {
      ghost var done, rest := s[..i], s[i..];
      if s[i] == '\r' {
        s := s[i := '\n'];
        i := i + 1;
        if i < |s| && s[i] == '\n' {
          s := s[..i] + s[i + 1..];
        }
        assert s[..i] == done + "\n";
        assert s[i..] == if |rest| > 1 && rest[1] == '\n' then rest[2..] else rest[1..];
        if i == |s| {
          PrependNone(done);
          return false, s;
        }
        PrependTwice(done, "\n", Lines(s[i..]));
      } else {
        i := i + 1;
        assert s[..i] == done + [rest[0]];
        assert rest[1..] == s[i..];
        PrependTwice(done, [rest[0]], Lines(s[i..]));
      }
    }
    assert s[..i] == s && s[i..] == "";
    PrependEmpty(s);
    ok := true;
  }

  lemma PrependNone(a: string)
    ensures Prepend(a, None) == None
  {
  }

  lemma PrependEmpty(a: string)
    ensures Prepend(a, Some("")) == Some(a)
  {
    assert a + "" == a;
  }

  /** What is left to decode, by the case the scan finds. */
  lemma DecodeStep(mode: Mode, s: string)
    requires s != ""
    ensures if mode != Cdata && StartsWith(s, "&#") && CharRef(s).Some? then
        Measure(s[CharRef(s).value.len..]) < Measure(s)
        && DecodeFrom(mode, s) == CharRef(s).value.bytes + DecodeFrom(mode, s[CharRef(s).value.len..])
      else if mode != Cdata && s[0] == '&' && !StartsWith(s, "&#") && Entity(s).Some? then
        Measure(Entity(s).value.bytes + s[Entity(s).value.len..]) < Measure(s)
        && DecodeFrom(mode, s) == DecodeFrom(mode, Entity(s).value.bytes + s[Entity(s).value.len..])
      else
        Measure(s[1..]) < Measure(s)
        && DecodeFrom(mode, s) ==
          (if mode == Attribute && IsSpace(s[0]) then " " else [s[0]]) + DecodeFrom(mode, s[1..])
  {
    hide CharRef, Entity, IsSpace;
    DropMeasure(s, 1);
    if CharRef(s).Some? {
      DropMeasure(s, CharRef(s).value.len);
    }
    if s[0] == '&' && Entity(s).Some? {
      EntityShrinks(s);
    }
  }

  lemma Spliced(s: string, i: nat, bytes: string, n: nat)
    requires i + n <= |s|
    ensures var t := s[..i] + bytes + s[i + n..];
      t[..i] == s[..i] && t[i..] == bytes + s[i..][n..]
      && t[..i + |bytes|] == s[..i] + bytes && t[i + |bytes|..] == s[i..][n..]
  {
  }

  /** The scan at position i0: afterwards it stands at i, with the same text still to come out. */
  ghost predicate SameText(mode: Mode, s0: string, i0: nat, s: string, i: nat)
    requires i0 <= |s0| && i <= |s|
  {
    s[..i] + DecodeFrom(mode, s[i..]) == s0[..i0] + DecodeFrom(mode, s0[i0..]) && Measure(s[i..]) < Measure(s0[i0..])
  }

  /** The piece of n characters at i0 becomes bytes, and the scan moves behind them. */
  lemma Replaced(mode: Mode, s0: string, i0: nat, bytes: string, n: nat)
    requires i0 + n <= |s0| && Measure(s0[i0..][n..]) < Measure(s0[i0..])
    requires DecodeFrom(mode, s0[i0..]) == bytes + DecodeFrom(mode, s0[i0..][n..])
    ensures SameText(mode, s0, i0, s0[..i0] + bytes + s0[i0 + n..], i0 + |bytes|)
  {
    hide DecodeFrom, Measure;
    Spliced(s0, i0, bytes, n);
    Regroup(s0[..i0], bytes, DecodeFrom(mode, s0[i0..][n..]));
  }

  /** The piece becomes text that is scanned again. */
  lemma Rescanned(mode: Mode, s0: string, i0: nat, bytes: string, n: nat)
    requires i0 + n <= |s0| && Measure(bytes + s0[i0..][n..]) < Measure(s0[i0..])
    requires DecodeFrom(mode, s0[i0..]) == DecodeFrom(mode, bytes + s0[i0..][n..])
    ensures SameText(mode, s0, i0, s0[..i0] + bytes + s0[i0 + n..], i0)
  {
    hide DecodeFrom, Measure;
    Spliced(s0, i0, bytes, n);
  }

  /** The second pass at one position that needs attention. */
  method DecodeOne(mode: Mode, s0: string, i0: nat) returns (s: string, i: nat)
    requires i0 < |s0|
    ensures i <= |s| && SameText(mode, s0, i0, s, i)
  {
    hide CharRef, Entity, IsSpace, DecodeFrom, Measure, SameText, StartsWith;
    ghost var rest := s0[i0..];
    DecodeStep(mode, rest);
    s, i := s0, i0;
    if mode != Cdata && StartsWith(s[i..], "&#") {
      var ref := CharRef(s[i..]);
      if ref.Some? {
        Replaced(mode, s, i, ref.value.bytes, ref.value.len);
        s := s[..i] + ref.value.bytes + s[i + ref.value.len..];
        i := i + |ref.value.bytes|;
        return;
      }
    } else if mode != Cdata && s[i] == '&' {
      var ent := Entity(s[i..]);
      if ent.Some? {
        Rescanned(mode, s, i, ent.value.bytes, ent.value.len);
        s := s[..i] + ent.value.bytes + s[i + ent.value.len..];
        return;
      }
    } else if mode == Attribute && IsSpace(s[i]) {
      Replaced(mode, s, i, " ", 1);
      s := s[i := ' '];
      assert s == s0[..i] + " " + s0[i + 1..];
      i := i + 1;
      return;
    }
    RefIsNoSpace(rest);
    Replaced(mode, s, i, [s[i]], 1);
    assert s == s[..i] + [s[i]] + s[i + 1..];
    i := i + 1;
  }

  /** ezxml_decode: both passes over one buffer that is rewritten where the scan stands. */
  method EzDecode(mode: Mode, s0: string) returns (ok: bool, s: string)
    ensures ok <==> Decode(mode, s0).Some?
    ensures ok ==> s == Decode(mode, s0).value
  {
    hide Lines, DecodeFrom, Measure;
    ok, s := EndLines(s0);
    if !ok {
      return;
    }
    ghost var all := DecodeFrom(mode, s);
    var i := 0;
    assert s[0..] == s && "" + all == all;
    while i < |s|
      invariant 0 <= i <= |s| && s[..i] + DecodeFrom(mode, s[i..]) == all
      decreases Measure(s[i..])
    {
      s, i := DecodeOne(mode, s, i);
    }
    DecodeNothing(mode);
    assert s[i..] == "" && s[..i] + "" == s;
  }

  lemma Regroup(a: string, b: string, c: string)
    ensures a + (b + c) == (a + b) + c
  {
  }

  lemma RefIsNoSpace(s: string)
    requires s != ""
    ensures s[0] == '&' || StartsWith(s, "&#") ==> !IsSpace(s[0])
  {
  }

  lemma DecodeNothing(mode: Mode)
    ensures DecodeFrom(mode, "") == ""
  {
  }
}
